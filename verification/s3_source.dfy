/** `Sources::S3`: a source kept as an Amazon S3 object, addressed by
    `s3:/<bucket>/<key>`. */
module S3Source {
  import opened Outcomes
  import opened Text
  import opened Uris
  import opened Metadata
  import opened Environment
  import opened Sources

  /** `S3.store(source, uri)`: refuses an existing object and writes nothing;
      otherwise stores the source's blob (a nil blob as an empty object, with
      no content type) and returns an S3 source at `uri` carrying the source's
      metadata. */
  function Store(env: Env, w: World, src: Source, u: Uri): (r: (Result<Source>, World))
    ensures S3Location(u).None? ==> r.0.Err? && r.1 == w
    ensures S3Find(w, u).Some? ==> r == (Err(StorageConflict(S3Location(u).value.key)), w)
    ensures r.1 != w ==>
      S3Location(u).Some? && S3Find(w, u).None? && BlobOf(env, w, src).Ok? &&
      r.1 == w.(s3 := w.s3[S3Location(u).value := S3Object(Contents(BlobOf(env, w, src).value), None)])
    ensures r.0.Ok? ==>
      r.1 != w && MetadataOf(env, r.1, src).Ok? &&
      r.0.value == Make(S3Kind(u), MetadataOf(env, r.1, src).value)
  {
    match S3Location(u)
    case None => (Err(TypeMismatch("S3 bucket and key")), w)
    case Some(loc) =>
      if loc in w.s3 then (Err(StorageConflict(loc.key)), w)
      else
        match BlobOf(env, w, src)
        case Err(e) => (Err(e), w)
        case Ok(b) =>
          var w1 := w.(s3 := w.s3[loc := S3Object(Contents(b), None)]);
          match MetadataOf(env, w1, src)
          case Err(e) => (Err(e), w1)
          case Ok(h) => (Ok(Make(S3Kind(u), h)), w1)
  }

  /** The bytes a possibly nil blob writes. */
  function Contents(b: Option<Bytes>): Bytes
  {
    if b.Some? then b.value else []
  }

  /** A stored source reads back the input source's blob, and its URI is the
      target. */
  lemma StoreThenBlob(env: Env, w: World, src: Source, u: Uri)
    requires Store(env, w, src, u).0.Ok?
    requires BlobOf(env, w, src).Ok? && BlobOf(env, w, src).value.Some?
    ensures var (s, w1) := Store(env, w, src, u);
      BlobOf(env, w1, s.value) == BlobOf(env, w, src) && UriOf(s.value) == Ok(Some(u))
  {
    var (s, w1) := Store(env, w, src, u);
    var b := BlobOf(env, w, src).value.value;
    FindAfterPut(w, u, S3Object(b, None));
    ReadStored(env, w1, u, MetadataOf(env, w1, src).value, b);
  }

  /** An object just put at a URI's location is what a find there returns. */
  lemma FindAfterPut(w: World, u: Uri, o: S3Object)
    requires S3Location(u).Some?
    ensures S3Find(w.(s3 := w.s3[S3Location(u).value := o]), u) == Some(o)
  {
  }

  /** An S3 source reads the content of the object at its URI. */
  lemma ReadStored(env: Env, w: World, u: Uri, m: Meta, b: Bytes)
    requires S3Find(w, u) == Some(S3Object(b, None))
    ensures BlobOf(env, w, Make(S3Kind(u), m)) == Ok(Some(b))
    ensures UriOf(Make(S3Kind(u), m)) == Ok(Some(u))
  {
  }

  /** For `s3:/<bucket>/<key>` the bucket is the second segment and the key
      the last. */
  lemma LocationOfBucketPath(scheme: Option<string>, host: Option<string>, bucket: string, key: string)
    requires bucket != "" && '/' !in bucket
    requires key != "" && '/' !in key
    ensures S3Location(Uri(scheme, host, "/" + bucket + "/" + key)) == Some(S3Key(bucket, key))
  {
    SegmentsOfBucketPath(bucket, key);
  }

  /** `S3.reload(uri, metadata)`: no lookup. */
  function Reload(u: Uri, m: Meta): Source
  {
    Make(S3Kind(u), m)
  }

  /** Flags and names: persistent, writable, the primer filename or else the
      key. */
  lemma Accessors(env: Env, w: World, u: Uri, m: Meta)
    ensures UriOf(Reload(u, m)) == Ok(Some(u))
    ensures PersistentOf(Reload(u, m)) == Ok(true)
    ensures ReadonlyOf(Reload(u, m)) == Ok(false)
    ensures FilenameOf(env, w, Reload(u, m)) == Ok(Or(Lookup(m, FILENAME), SegmentValue(LastSegment(u.path))))
  {
  }

  /** `S3#valid?`: true when the object is found; otherwise false with the
      message "Missing S3 object", which raises on a frozen source. */
  function Valid(w: World, src: Source): (r: Validation)
    requires src.kind.S3Kind?
    ensures (r.outcome == Ok(true)) <==> S3Find(w, src.kind.uri).Some?
    ensures r.outcome.Err? <==> S3Find(w, src.kind.uri).None? && src.frozen
    ensures r.outcome == Ok(false) ==> r.source == src.(error := Message("Missing S3 object"))
    ensures r.outcome != Ok(false) ==> r.source == src
  {
    if S3Find(w, src.kind.uri).Some? then Validation(Ok(true), src)
    else if src.frozen then Validation(Err(FrozenObject), src)
    else Validation(Ok(false), src.(error := Message("Missing S3 object")))
  }

  /** `S3#destroy` as written: deletes the object, then Base#destroy clears and
      freezes (in an `ensure`, so also when the delete raised). A missing
      object is nil here, so the delete raises NoMethodError rather than the
      MissingSource its rescue intends. */
  function Destroy(w: World, src: Source): (r: Destruction)
    requires src.kind.S3Kind?
    ensures S3Find(w, src.kind.uri).Some? ==>
      r == BaseDestroy(src, w.(s3 := w.s3 - {S3Location(src.kind.uri).value}))
    ensures S3Find(w, src.kind.uri).None? ==>
      r.world == w && r.source == BaseDestroy(src, w).source &&
      r.raised == Some(if src.frozen then FrozenObject else NilReceiver("delete"))
  {
    var base := BaseDestroy(src, w);
    match S3Location(src.kind.uri)
    case None => Destruction(Some(if src.frozen then FrozenObject else NilReceiver("delete")), base.source, w)
    case Some(loc) =>
      if loc in w.s3 then BaseDestroy(src, w.(s3 := w.s3 - {loc}))
      else Destruction(Some(if src.frozen then FrozenObject else NilReceiver("delete")), base.source, w)
  }

  /** Whatever the delete does, an unfrozen source ends cleared and frozen. */
  lemma DestroyFreezes(w: World, src: Source)
    requires src.kind.S3Kind? && !src.frozen
    ensures Destroy(w, src).source.frozen && Destroy(w, src).source.primer.None?
    ensures S3Find(Destroy(w, src).world, src.kind.uri).None?
  {
  }
}
