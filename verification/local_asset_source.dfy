/** `Sources::LocalAsset`: a read-only File under the application's public
    directory, addressed by a scheme-less URI. It outlives every source that
    refers to it. */
module LocalAssetSource {
  import opened Outcomes
  import opened Uris
  import opened Metadata
  import opened Environment
  import opened Sources

  /** `LocalAsset.new(uri, metadata)`. */
  function New(u: Uri, m: Meta): Source
  {
    Make(LocalAssetKind(u), m)
  }

  /** The URI is the one given at construction; the data is read from the
      public directory joined with the URI path; the source is persistent. */
  lemma Accessors(env: Env, w: World, u: Uri, m: Meta)
    ensures UriOf(New(u, m)) == Ok(Some(u))
    ensures AssetPath(env, u) in w.files ==>
      BlobOf(env, w, New(u, m)) == Ok(Some(w.files[AssetPath(env, u)].content))
    ensures AssetPath(env, u) !in w.files ==>
      BlobOf(env, w, New(u, m)) == Err(NoSuchFile(AssetPath(env, u)))
    ensures PersistentOf(New(u, m)) == Ok(true)
  {
  }

  /** `valid?` (inherited from File) opens the asset; a missing asset's error
      is not rescued and escapes. */
  function Valid(env: Env, w: World, src: Source): (r: Validation)
    requires src.kind.LocalAssetKind?
    ensures r.source == src
    ensures var p := AssetPath(env, src.kind.uri);
      (r.outcome.Ok? <==> p in w.files || p in w.dirs) &&
      (r.outcome.Ok? ==> r.outcome.value) &&
      (r.outcome.Err? ==> r.outcome.error == NoSuchFile(p))
  {
    var p := AssetPath(env, src.kind.uri);
    if p in w.files || p in w.dirs then Validation(Ok(true), src)
    else Validation(Err(NoSuchFile(p)), src)
  }

  /** `LocalAsset#destroy` does nothing: no deletion, no freezing. */
  function Destroy(w: World, src: Source): (r: Destruction)
    requires src.kind.LocalAssetKind?
    ensures r.raised.None? && r.world == w && r.source == src
  {
    Destruction(None, src, w)
  }

  /** Unlike a File, destroying a local asset any number of times leaves it
      readable and its source usable. */
  lemma DestroyHarmless(env: Env, w: World, src: Source)
    requires src.kind.LocalAssetKind?
    ensures var d := Destroy(w, src);
      var d2 := Destroy(d.world, d.source);
      d2 == d && !d2.source.frozen == !src.frozen &&
      BlobOf(env, d2.world, d2.source) == BlobOf(env, w, src) &&
      Valid(env, d2.world, d2.source) == Valid(env, w, src)
  {
  }
}
