/** The record-level helpers of an attachment model that the sources serve:
    the default storage URI, `local?`, the processing choice, `image_size`,
    the guards of `source=`, `valid_source?` and `destroy_source`. */
module Attach {
  import opened Outcomes
  import opened Text
  import opened Uris
  import opened Metadata
  import opened Environment
  import opened Sources
  import FileSource
  import MemorySource
  import S3Source
  import Lifecycle
  import Dispatch

  // ---------------------------------------------------------------------------
  // Storage URI
  // ---------------------------------------------------------------------------

  /** The extension `storage_uri` passes on: the MIME type's symbol with every
      `/` made `_`, or nil when the value has no `to_sym`. An unregistered
      type has a nil symbol, whose text is empty. */
  function Extension(mt: Value): (r: Option<string>)
    ensures r.None? <==> ToSym(mt).Err?
    ensures r.Some? ==> '/' !in r.value
  {
    match ToSym(mt)
    case Ok(sym) =>
      ReplaceCharRemoves(SymbolText(sym), '/', '_');
      Some(ReplaceChar(SymbolText(sym), '/', '_'))
    case Err(_) => None
  }

  /** The file name the default `:store` proc builds: `[[id, aspect].compact
      .join('_'), ext].join('.')`, where a nil extension joins as empty. */
  function StorageName(id: string, aspect: Option<string>, ext: Option<string>): string
  {
    (if aspect.Some? then id + "_" + aspect.value else id) + "." + (if ext.Some? then ext.value else "")
  }

  /** The directory the default `:store` proc stores into. */
  function AttachmentsDir(railsRoot: string): string
  {
    JoinPath(JoinPath(railsRoot, "public"), "attachments")
  }

  /** `storage_uri(id, aspect, mt)` with the default `:store` proc:
      `file://localhost<root>/public/attachments/<name>`. */
  function StorageUri(railsRoot: string, id: string, aspect: Option<string>, mt: Value): (u: Uri)
    ensures u.scheme == Some("file") && u.host == Some("localhost")
  {
    LocalFileUri(JoinPath(AttachmentsDir(railsRoot), StorageName(id, aspect, Extension(mt))))
  }

  lemma LastSegmentOfJoin(dir: string, name: string)
    requires name != "" && '/' !in name
    ensures LastSegment(JoinPath(dir, name)) == Some(name)
  {
    if |dir| > 0 && dir[|dir| - 1] == '/' {
      var d := dir[..|dir| - 1];
      assert JoinPath(dir, name) == d + "/" + name;
      LastSegmentOfChild(d, name);
    } else {
      LastSegmentOfChild(dir, name);
    }
  }

  /** The stored file is named `<id>[_<aspect>].<ext>` inside the attachments
      directory: it is the last segment of the URI path, the URI is local, and
      storing to it goes to the file system. */
  lemma StorageUriShape(env: Env, w: World, src: Source, id: string, aspect: Option<string>, mt: Value)
    requires '/' !in id && (aspect.Some? ==> '/' !in aspect.value)
    ensures var u := StorageUri(env.railsRoot, id, aspect, mt);
      LastSegment(u.path) == Some(StorageName(id, aspect, Extension(mt))) &&
      Local(Some(u)) &&
      Dispatch.Store(env, w, src, u) == FileSource.Store(env, w, src, u)
  {
    var name := StorageName(id, aspect, Extension(mt));
    assert '/' !in name by {
      var stem := if aspect.Some? then id + "_" + aspect.value else id;
      var ext := if Extension(mt).Some? then Extension(mt).value else "";
      assert name == stem + "." + ext;
      assert forall i :: 0 <= i < |name| ==> name[i] != '/' by {
        forall i | 0 <= i < |name| ensures name[i] != '/' {
          if i < |stem| {
            assert name[i] == stem[i];
            if aspect.Some? && i >= |id| + 1 {
              assert stem[i] == aspect.value[i - |id| - 1];
            } else if i < |id| {
              assert stem[i] == id[i];
            }
          } else if i > |stem| {
            assert name[i] == ext[i - |stem| - 1];
          }
        }
      }
    }
    LastSegmentOfJoin(AttachmentsDir(env.railsRoot), name);
  }

  /** A MIME type that is not registered leaves no trace of its string in the
      storage URI: the name ends in a bare `.`. */
  lemma UnregisteredTypeHidden(railsRoot: string, id: string, aspect: Option<string>, s: string)
    ensures StorageUri(railsRoot, id, aspect, MimeValue(Mime(s, None))) ==
      LocalFileUri(JoinPath(AttachmentsDir(railsRoot), (if aspect.Some? then id + "_" + aspect.value else id) + "."))
  {
    assert SymbolText(None) == "";
    assert ReplaceChar("", '/', '_') == "";
  }

  // ---------------------------------------------------------------------------
  // Record predicates
  // ---------------------------------------------------------------------------

  /** `local?`: a URI is present and its scheme is file, db or s3. */
  function Local(uri: Option<Uri>): bool
  {
    uri.Some? && uri.value.scheme in {Some("file"), Some("db"), Some("s3")}
  }

  /** Local URIs are the ones the stores own: file and s3 URIs always reload,
      and a URI with some other scheme can neither be stored nor (unless it is
      http) reloaded. */
  lemma LocalMeansStored(env: Env, w: World, src: Source, u: Uri, m: Meta)
    ensures !Local(None)
    ensures Local(Some(u)) && u.scheme != Some("db") ==> Dispatch.Reload(env, w, u, m).Ok?
    ensures u.scheme.Some? && !Local(Some(u)) ==>
      Dispatch.Store(env, w, src, u) == (Err(UnsupportedScheme(Storing, u.scheme)), w)
    ensures u.scheme.Some? && !Local(Some(u)) && !Dispatch.IsHttp(u.scheme) ==>
      Dispatch.Reload(env, w, u, m) == Err(UnsupportedScheme(Reloading, u.scheme))
  {
  }

  /** `processing`: an explicitly set transform wins; otherwise `:max` for an
      image to be resized, `:info` for another image, and none for the rest. */
  function Processing(explicit: Option<string>, isImage: bool, resize: bool): (r: Option<string>)
  {
    if explicit.Some? then explicit
    else if !isImage then None
    else if resize then Some("max")
    else Some("info")
  }

  /** The chosen processing is one `process` knows: a preset or `info`. */
  lemma ProcessingKnown(isImage: bool, resize: bool)
    ensures var r := Processing(None, isImage, resize);
      (r.Some? <==> isImage) &&
      (r.Some? ==> r.value in Dispatch.AvailableImageProcessing() || r.value == "info") &&
      (r.Some? ==> (r.value == "info" <==> !resize))
  {
    assert "max" in Dispatch.AvailableImageProcessing();
  }

  /** `image_size`: `"<width>x<height>"` when the metadata has both. */
  function ImageSize(metadata: Option<Meta>): (r: Option<string>)
    ensures r.Some? <==> (metadata.Some? &&
      Truthy(Lookup(metadata.value, WIDTH)) && Truthy(Lookup(metadata.value, HEIGHT)))
  {
    if metadata.Some? && Truthy(Lookup(metadata.value, WIDTH)) && Truthy(Lookup(metadata.value, HEIGHT)) then
      Some(ToS(Lookup(metadata.value, WIDTH)) + "x" + ToS(Lookup(metadata.value, HEIGHT)))
    else None
  }

  /** For integer dimensions the size string splits at its one `x` into the
      two numerals, which read back as the width and the height. */
  lemma ImageSizeRoundTrip(m: Meta, width: nat, height: nat)
    requires Lookup(m, WIDTH) == Int(width) && Lookup(m, HEIGHT) == Int(height)
    ensures ImageSize(Some(m)).Some?
    ensures var fs := Fields(ImageSize(Some(m)).value, 'x');
      |fs| == 2 && ParseNat(fs[0]) == Some(width) && ParseNat(fs[1]) == Some(height)
  {
    var a, b := ShowNat(width), ShowNat(height);
    assert ImageSize(Some(m)).value == a + ['x'] + b;
    FieldsAround(a, b, 'x');
    ShowNatPlain(width);
    ShowNatPlain(height);
    FieldsOfPlain(a, 'x');
    FieldsOfPlain(b, 'x');
    ParseShowNat(width);
    ParseShowNat(height);
  }

  // ---------------------------------------------------------------------------
  // Assigning, validating and discarding the source
  // ---------------------------------------------------------------------------

  /** What `source=` can be handed: a source, or an object of another class. */
  datatype Candidate = Candidate(source: Source) | Foreign(className: string)

  /** What a successful `source=` records: the metadata column, the attributes
      written from metadata keys the record answers to, and the source. */
  datatype Assignment = Assignment(metadata: Meta, attributes: Meta, source: Source)

  /** The previous-source guard: a cached source that persists on its own, is
      writable and belongs to this record (not an aspect, or shared with the
      parent) must have been destroyed first. */
  function PreviousLive(previous: Option<Source>, isAspect: bool, sharedWithParent: bool): (r: Result<bool>)
    ensures r == Ok(true) ==> (previous.Some? && PersistentOf(previous.value) == Ok(true) &&
      ReadonlyOf(previous.value) == Ok(false) && (!isAspect || sharedWithParent))
  {
    match previous
    case None => Ok(false)
    case Some(p) =>
      var persistent :- PersistentOf(p);
      if !persistent then Ok(false)
      else
        var readonly :- ReadonlyOf(p);
        Ok(!readonly && (!isAspect || sharedWithParent))
  }

  /** `metadata.reject { |k, v| a[k] = v if respond_to?(k) }`: a key the record
      answers to is copied to the attributes, and leaves the metadata only
      when its value is truthy. */
  function Attributes(m: Meta, columns: set<string>): Meta
  {
    map k | k in m && k in columns :: m[k]
  }

  function Kept(m: Meta, columns: set<string>): Meta
  {
    map k | k in m && !(k in columns && Truthy(m[k])) :: m[k]
  }

  /** `source=(src)`. */
  function AssignSource(env: Env, w: World, previous: Option<Source>, candidate: Candidate,
                        isAspect: bool, sharedWithParent: bool, columns: set<string>): (r: Result<Assignment>)
    ensures candidate.Foreign? ==> r == Err(NotASource)
    ensures candidate.Candidate? && Lifecycle.Valid(env, w, candidate.source).outcome == Ok(false) ==>
      r == Err(InvalidSource)
    ensures r.Ok? ==> (candidate.Candidate? &&
      Lifecycle.Valid(env, w, candidate.source).outcome == Ok(true) &&
      r.value.source == Lifecycle.Valid(env, w, candidate.source).source)
    ensures r.Ok? ==> (previous.None? || PersistentOf(previous.value) == Ok(false) ||
      ReadonlyOf(previous.value) == Ok(true) || (isAspect && !sharedWithParent))
    ensures r.Ok? ==> (MetadataOf(env, w, r.value.source).Ok? &&
      var m := MetadataOf(env, w, r.value.source).value;
      r.value.metadata.Keys + r.value.attributes.Keys == m.Keys &&
      (forall k :: k in r.value.metadata ==> r.value.metadata[k] == m[k]) &&
      (forall k :: k in r.value.attributes ==> r.value.attributes[k] == m[k] && k in columns) &&
      (forall k :: k in m && k in columns ==> k in r.value.attributes) &&
      (forall k :: k in r.value.metadata && k in r.value.attributes ==> !Truthy(m[k])))
  {
    match candidate
    case Foreign(_) => Err(NotASource)
    case Candidate(src) =>
      var v := Lifecycle.Valid(env, w, src);
      var ok :- v.outcome;
      if !ok then Err(InvalidSource)
      else
        var live :- PreviousLive(previous, isAspect, sharedWithParent);
        if live then Err(PreviousSourceLive)
        else
          var m :- MetadataOf(env, w, v.source);
          Ok(Assignment(Kept(m, columns), Attributes(m, columns), v.source))
  }

  /** A Memory source stays persistent and writable after it is destroyed, so
      while it is still cached it blocks every new source of the record:
      `destroy_source` must drop it from the cache. */
  lemma StaleSourceBlocks(env: Env, w: World, previous: Source, src: Source, columns: set<string>)
    requires previous.kind.MemoryKind?
    requires Lifecycle.Valid(env, w, src).outcome == Ok(true)
    ensures var stale := Lifecycle.Destroy(env, w, previous).source;
      AssignSource(env, w, Some(stale), Candidate(src), false, false, columns) == Err(PreviousSourceLive)
  {
  }

  /** After `destroy_source` the cache is empty, so a valid source whose
      metadata can be read is accepted. */
  lemma AssignAfterDestroy(env: Env, w: World, previous: Option<Source>, src: Source,
                           isAspect: bool, shared: bool, columns: set<string>)
    requires var w1 := DestroySource(env, w, previous).world;
      Lifecycle.Valid(env, w1, src).outcome == Ok(true) &&
      MetadataOf(env, w1, Lifecycle.Valid(env, w1, src).source).Ok?
    ensures var d := DestroySource(env, w, previous);
      AssignSource(env, d.world, d.cached, Candidate(src), isAspect, shared, columns).Ok?
  {
  }

  /** The error message `valid_source?` reads from a source after asking
      `valid?`: none for a valid source, and for an invalid one its `error`
      when that is a message (a `false` error adds nothing). */
  function Reported(v: Validation): (r: Result<Option<string>>)
    ensures v.outcome.Err? ==> r == Err(v.outcome.error)
    ensures v.outcome == Ok(true) ==> r == Ok(None)
    ensures r.Ok? && r.value.Some? ==> v.outcome == Ok(false) && v.source.error == Message(r.value.value)
    ensures v.outcome == Ok(false) && v.source.error.Message? ==> r == Ok(Some(v.source.error.text))
  {
    var ok :- v.outcome;
    if ok then Ok(None)
    else
      match v.source.error
      case Message(text) => Ok(Some(text))
      case _ => Ok(None)
  }

  /** `valid_source?`: the message added to the record's errors, if any. */
  function ValidSourceMessage(env: Env, w: World, source: Option<Source>): (r: Result<Option<string>>)
    ensures source.None? ==> r == Ok(Some("Source not available"))
    ensures source.Some? && Lifecycle.Valid(env, w, source.value).outcome.Err? ==>
      r == Err(Lifecycle.Valid(env, w, source.value).outcome.error)
    ensures source.Some? && Lifecycle.Valid(env, w, source.value).outcome == Ok(true) ==> r == Ok(None)
    ensures source.Some? && r.Ok? && r.value.Some? ==>
      Lifecycle.Valid(env, w, source.value).outcome == Ok(false) &&
      Lifecycle.Valid(env, w, source.value).source.error == Message(r.value.value)
  {
    match source
    case None => Ok(Some("Source not available"))
    case Some(s) => Reported(Lifecycle.Valid(env, w, s))
  }

  /** A file that is gone is reported with the ENOENT message of its path. */
  lemma MissingFileMessage(env: Env, w: World, src: Source)
    requires src.kind.FileKind? && !src.frozen
    requires Resolve(env, src.kind.uri.path) !in w.files && Resolve(env, src.kind.uri.path) !in w.dirs
    ensures ValidSourceMessage(env, w, Some(src)) == Ok(Some(Enoent(src.kind.uri.path)))
  {
  }

  /** A missing S3 object is reported as such. */
  lemma MissingS3Message(env: Env, w: World, src: Source)
    requires src.kind.S3Kind? && !src.frozen && S3Find(w, src.kind.uri).None?
    ensures ValidSourceMessage(env, w, Some(src)) == Ok(Some("Missing S3 object"))
  {
  }

  /** What `destroy_source` leaves: the exception that escaped, if any, the
      stores, and the cached source (always cleared). */
  datatype Cleared = Cleared(raised: Option<Error>, world: World, cached: Option<Source>)

  /** `destroy_source`: destroys the source if there is one, swallows
      MissingSource and always clears the cache. */
  function DestroySource(env: Env, w: World, source: Option<Source>): (r: Cleared)
    ensures r.cached.None?
    ensures r.raised.Some? ==> !r.raised.value.MissingSource?
    ensures source.None? ==> r.raised.None? && r.world == w
    ensures source.Some? ==>
      var d := Lifecycle.Destroy(env, w, source.value);
      r.world == d.world && (r.raised.None? <==> d.raised.None? || d.raised.value.MissingSource?)
  {
    match source
    case None => Cleared(None, w, None)
    case Some(s) => Swallow(Lifecycle.Destroy(env, w, s))
  }

  /** The `rescue MissingSource` and `ensure @source = nil` of `destroy_source`. */
  function Swallow(d: Destruction): (r: Cleared)
    ensures r.cached.None? && r.world == d.world
    ensures r.raised.None? <==> d.raised.None? || d.raised.value.MissingSource?
    ensures r.raised.Some? ==> r.raised == d.raised
  {
    if d.raised.Some? && d.raised.value.MissingSource? then Cleared(None, d.world, None)
    else Cleared(d.raised, d.world, None)
  }

  /** Discarding a Memory, File or local asset source never raises. */
  lemma DestroySourceQuiet(env: Env, w: World, src: Source)
    requires src.kind.MemoryKind? || src.kind.FileKind? || src.kind.LocalAssetKind?
    ensures DestroySource(env, w, Some(src)).raised.None?
  {
  }
}
