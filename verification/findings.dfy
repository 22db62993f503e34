/** Four places where the code does not do what its own surroundings show it
    means to do. For each, a lemma exhibits the behaviour as written (the
    modules above model the code as written), and a corrected definition
    carries the intended property. */
module Findings {
  import opened Outcomes
  import opened Text
  import opened Uris
  import opened Metadata
  import opened Environment
  import opened Sources
  import MemorySource
  import S3Source
  import ExifrSource
  import Lifecycle
  import Dispatch
  import Attach

  // ---------------------------------------------------------------------------
  // 1. The memory scheme is missing from the dispatchers
  // ---------------------------------------------------------------------------

  /** As written: a `memory` URI can be neither reloaded nor stored to, although
      the Memory backend implements both. */
  lemma MemoryNotDispatched(env: Env, w: World, src: Source, u: Uri, m: Meta)
    requires u.scheme == Some("memory")
    ensures Dispatch.Reload(env, w, u, m) == Err(UnsupportedScheme(Reloading, Some("memory")))
    ensures Dispatch.Store(env, w, src, u) == (Err(UnsupportedScheme(Storing, Some("memory"))), w)
  {
  }

  /** `reload` with a branch for the memory scheme. */
  function ReloadWithMemory(env: Env, w: World, u: Uri, m: Meta): (r: Result<Source>)
    ensures u.scheme != Some("memory") ==> r == Dispatch.Reload(env, w, u, m)
    ensures u.scheme == Some("memory") ==> r.Ok? && UriOf(r.value) == Ok(Some(u)) && r.value.primer == Some(m)
  {
    if u.scheme == Some("memory") then Ok(MemorySource.Reload(u, m)) else Dispatch.Reload(env, w, u, m)
  }

  /** `store` with a branch for the memory scheme. */
  function StoreWithMemory(env: Env, w: World, src: Source, u: Uri): (r: (Result<Source>, World))
    ensures u.scheme != Some("memory") ==> r == Dispatch.Store(env, w, src, u)
    ensures u.scheme == Some("memory") ==> r == MemorySource.Store(env, w, src, u)
  {
    if u.scheme == Some("memory") then MemorySource.Store(env, w, src, u) else Dispatch.Store(env, w, src, u)
  }

  /** With the branches in place, a source stored in memory reloads from its
      URI with the data it was stored with. */
  lemma MemoryRoundTrip(env: Env, w: World, src: Source, u: Uri, m: Meta)
    requires u.scheme == Some("memory")
    requires StoreWithMemory(env, w, src, u).0.Ok?
    ensures var (s, w1) := StoreWithMemory(env, w, src, u);
      UriOf(s.value) == Ok(Some(u)) &&
      ReloadWithMemory(env, w1, u, m).Ok? &&
      BlobOf(env, w1, ReloadWithMemory(env, w1, u, m).value) == BlobOf(env, w, src)
  {
    MemorySource.StoreThenBlob(env, w, src, u);
    MemorySource.Accessors(env, StoreWithMemory(env, w, src, u).1, u, m);
  }

  // ---------------------------------------------------------------------------
  // 2. `process(:info)` routes :tiff, EXIFR accepts :tif
  // ---------------------------------------------------------------------------

  /** As written: a source whose MIME symbol is `:tiff` is wrapped for EXIFR,
      whose metadata then raises; a `:tif` source is never wrapped. */
  lemma TiffRoutedButRefused(env: Env, w: World, src: Source, name: string)
    requires MimeTypeOf(env, w, src) == Ok(MimeValue(Mime(name, Some("tiff"))))
    requires BaseMetadata(env, w, ExifrSource.New(src)).Ok?
    ensures Dispatch.Process(env, w, src, "info") == Ok(ExifrSource.New(src))
    ensures MetadataOf(env, w, ExifrSource.New(src)) == Err(UnsupportedMime)
  {
    ExifrSource.UnsupportedMimeRaises(env, w, src);
  }

  lemma TifNotRouted(env: Env, w: World, src: Source, name: string)
    requires MimeTypeOf(env, w, src) == Ok(MimeValue(Mime(name, Some("tif"))))
    ensures Dispatch.Process(env, w, src, "info") == Ok(src)
  {
  }

  /** The MIME symbols EXIFR reads. */
  const ExifrSymbols: set<Option<string>> := {Some("jpg"), Some("tif")}

  /** `process(:info)` routing on the symbols EXIFR accepts. */
  function ProcessInfo(env: Env, w: World, src: Source): (r: Result<Source>)
    ensures r.Ok? <==> MimeTypeOf(env, w, src).Ok? && ToSym(MimeTypeOf(env, w, src).value).Ok?
    ensures r.Ok? ==> r.value == src || r.value == ExifrSource.New(src)
    ensures r.Ok? ==>
      (ToSym(MimeTypeOf(env, w, src).value).value in ExifrSymbols ==> r.value == ExifrSource.New(src)) &&
      (ToSym(MimeTypeOf(env, w, src).value).value !in ExifrSymbols ==> r.value == src)
  {
    var mt :- MimeTypeOf(env, w, src);
    var sym :- ToSym(mt);
    if sym in ExifrSymbols then Ok(ExifrSource.Process(ExifrSource.New(src), "info")) else Ok(src)
  }

  /** Corrected, every source EXIFR is asked to read is wrapped, and a
      wrapped source never fails for its MIME type: reading its EXIF data
      fails exactly when its data cannot be read. */
  lemma RoutedSourcesAreReadable(env: Env, w: World, src: Source)
    requires MimeTypeOf(env, w, src).Ok? && ToSym(MimeTypeOf(env, w, src).value).Ok?
    requires ToSym(MimeTypeOf(env, w, src).value).value in ExifrSymbols
    ensures ProcessInfo(env, w, src) == Ok(ExifrSource.New(src))
    ensures ExifrImage(env, w, src).Err? <==> TempfileOf(env, w, src).Err?
  {
    if TempfileOf(env, w, src).Ok? {
      assert ExifrImage(env, w, src) == Ok(env.exifr(TempfileOf(env, w, src).value));
    }
  }

  // ---------------------------------------------------------------------------
  // 3. `Memory#valid?` stores `false` instead of its message
  // ---------------------------------------------------------------------------

  /** As written: an unfrozen Memory source whose key is gone is invalid, yet
      `valid_source?` finds no message to report. */
  lemma MissingKeyUnreported(env: Env, w: World, src: Source)
    requires src.kind.MemoryKind? && !src.frozen && MemorySource.Key(src.kind.uri) !in w.memory
    ensures Lifecycle.Valid(env, w, src).outcome == Ok(false)
    ensures Attach.ValidSourceMessage(env, w, Some(src)) == Ok(None)
  {
  }

  /** The message `Memory#valid?` was written to record. */
  function MissingKeyMessage(key: Option<string>): string
  {
    "No such key in store " + MemorySource.Shown(key)
  }

  /** `Memory#valid?` with `@error` assigned the message. */
  function MemoryValid(w: World, src: Source): (r: Validation)
    requires src.kind.MemoryKind?
    ensures r.outcome.Ok? ==> (r.outcome.value <==> MemorySource.Key(src.kind.uri) in w.memory)
    ensures r.outcome.Err? <==> MemorySource.Key(src.kind.uri) !in w.memory && src.frozen
    ensures r.outcome == Ok(true) ==> r.source == src
  {
    var key := MemorySource.Key(src.kind.uri);
    if key in w.memory then Validation(Ok(true), src)
    else if src.frozen then Validation(Err(FrozenObject), src)
    else Validation(Ok(false), src.(error := Message(MissingKeyMessage(key))))
  }

  /** Corrected, an invalid Memory source is always reported, with its key. */
  lemma MissingKeyReported(w: World, src: Source)
    requires src.kind.MemoryKind?
    ensures MemoryValid(w, src).outcome == Ok(false) ==>
      Attach.Reported(MemoryValid(w, src)) == Ok(Some(MissingKeyMessage(MemorySource.Key(src.kind.uri))))
  {
  }

  // ---------------------------------------------------------------------------
  // 4. S3#destroy of a missing object raises NoMethodError, not MissingSource
  // ---------------------------------------------------------------------------

  /** As written: `s3obj` turns a missing object into nil, so `destroy` calls
      `delete` on nil, and that error escapes `destroy_source`. */
  lemma MissingObjectEscapes(env: Env, w: World, src: Source)
    requires src.kind.S3Kind? && !src.frozen && S3Find(w, src.kind.uri).None?
    ensures Attach.DestroySource(env, w, Some(src)).raised == Some(NilReceiver("delete"))
  {
  }

  /** The message of `AWS::S3::NoSuchKey`. */
  const NoSuchKeyMessage := "The specified key does not exist."

  /** `S3#destroy` raising MissingSource for a missing object, as its rescue
      clause intends; the `ensure super` still clears and freezes, and raises
      FrozenObject in its place on a frozen source. */
  function S3Destroy(w: World, src: Source): (r: Destruction)
    requires src.kind.S3Kind?
    ensures S3Find(w, src.kind.uri).Some? ==> r == S3Source.Destroy(w, src)
    ensures S3Find(w, src.kind.uri).None? ==>
      r.world == w && r.source == BaseDestroy(src, w).source &&
      r.raised == Some(if src.frozen then FrozenObject else MissingSource(NoSuchKeyMessage))
  {
    if S3Find(w, src.kind.uri).Some? then S3Source.Destroy(w, src)
    else
      var base := BaseDestroy(src, w);
      Destruction(Some(if src.frozen then FrozenObject else MissingSource(NoSuchKeyMessage)), base.source, w)
  }

  /** Corrected, discarding an unfrozen S3 source never raises, whether or not
      its object exists, and leaves it cleared and frozen with its object gone. */
  lemma DiscardS3Quietly(w: World, src: Source)
    requires src.kind.S3Kind? && !src.frozen
    ensures Attach.Swallow(S3Destroy(w, src)).raised.None?
    ensures S3Destroy(w, src).source.frozen && S3Destroy(w, src).source.primer.None?
    ensures S3Find(Attach.Swallow(S3Destroy(w, src)).world, src.kind.uri).None?
  {
    S3Source.DestroyFreezes(w, src);
  }
}
