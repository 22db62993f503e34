/** `Sources::Memory`: a source kept in a process-wide hash, keyed by the last
    `/`-segment of its URI path. */
module MemorySource {
  import opened Outcomes
  import opened Text
  import opened Uris
  import opened Metadata
  import opened Environment
  import opened Sources

  /** `key`: the last `/`-segment of the URI path (nil for a path without one). */
  function Key(u: Uri): Option<string>
  {
    LastSegment(u.path)
  }

  /** A possibly nil string interpolated into a message. */
  function Shown(s: Option<string>): string
  {
    if s.Some? then s.value else ""
  }

  /** `Memory.store(source, uri)`: refuses an existing key; otherwise writes the
      source's blob under the key and returns a Memory source at `uri` carrying
      the source's metadata. The blob is written before `metadata` runs, so a
      failing `metadata` leaves the entry in place. */
  function Store(env: Env, w: World, src: Source, u: Uri): (r: (Result<Source>, World))
    ensures Key(u) in w.memory ==> r == (Err(StorageConflict(Shown(Key(u)))), w)
    ensures Key(u) !in w.memory && BlobOf(env, w, src).Err? ==> r == (Err(BlobOf(env, w, src).error), w)
    ensures Key(u) !in w.memory && BlobOf(env, w, src).Ok? ==>
      r.1 == w.(memory := w.memory[Key(u) := BlobOf(env, w, src).value])
    ensures r.0.Ok? ==>
      Key(u) !in w.memory && MetadataOf(env, r.1, src).Ok? &&
      UriOf(r.0.value) == Ok(Some(u)) && r.0.value.primer == Some(MetadataOf(env, r.1, src).value) &&
      r.0.value.error == NoError && !r.0.value.frozen
  {
    var key := Key(u);
    if key in w.memory then (Err(StorageConflict(Shown(key))), w)
    else
      match BlobOf(env, w, src)
      case Err(e) => (Err(e), w)
      case Ok(b) =>
        var w1 := w.(memory := w.memory[key := b]);
        match MetadataOf(env, w1, src)
        case Err(e) => (Err(e), w1)
        case Ok(h) => (Ok(Make(MemoryKind(u), h)), w1)
  }

  /** After a successful store the stored source reads back the blob the
      original source had. */
  lemma StoreThenBlob(env: Env, w: World, src: Source, u: Uri)
    requires Store(env, w, src, u).0.Ok?
    ensures BlobOf(env, w, src).Ok?
    ensures BlobOf(env, Store(env, w, src, u).1, Store(env, w, src, u).0.value) == BlobOf(env, w, src)
  {
  }

  /** `Memory.reload(uri, metadata)`: no lookup, so it cannot fail. */
  function Reload(u: Uri, m: Meta): Source
  {
    Make(MemoryKind(u), m)
  }

  /** Flags and names of a Memory source: persistent, writable, with the
      primer filename or else the key. */
  lemma Accessors(env: Env, w: World, u: Uri, m: Meta)
    ensures UriOf(Reload(u, m)) == Ok(Some(u))
    ensures PersistentOf(Reload(u, m)) == Ok(true)
    ensures ReadonlyOf(Reload(u, m)) == Ok(false)
    ensures FilenameOf(env, w, Reload(u, m)) == Ok(Or(Lookup(m, FILENAME), SegmentValue(Key(u))))
    ensures BlobOf(env, w, Reload(u, m)) == Ok(MemoryRead(w, Key(u)))
  {
  }

  /** `Memory#valid?` as written: true when the key is present; otherwise the
      precedence of `=` and `&&` stores `false` (not the message) in `@error`,
      which raises on a frozen source. */
  function Valid(w: World, src: Source): (r: Validation)
    requires src.kind.MemoryKind?
    ensures r.outcome.Ok? ==> (r.outcome.value <==> Key(src.kind.uri) in w.memory)
    ensures r.outcome.Err? <==> Key(src.kind.uri) !in w.memory && src.frozen
    ensures Key(src.kind.uri) in w.memory ==> r.source == src
    ensures Key(src.kind.uri) !in w.memory && !src.frozen ==> r.source == src.(error := FalseValue)
  {
    if Key(src.kind.uri) in w.memory then Validation(Ok(true), src)
    else if src.frozen then Validation(Err(FrozenObject), src)
    else Validation(Ok(false), src.(error := FalseValue))
  }

  /** `Memory#destroy`: deletes the key (absent or not), keeps the metadata and
      freezes; it never raises. */
  function Destroy(w: World, src: Source): (r: Destruction)
    requires src.kind.MemoryKind?
    ensures r.raised.None?
    ensures r.world.memory == w.memory - {Key(src.kind.uri)}
    ensures r.world == w.(memory := r.world.memory)
    ensures r.source == src.(frozen := true)
  {
    Destruction(None, src.(frozen := true), w.(memory := w.memory - {Key(src.kind.uri)}))
  }

  /** A destroyed Memory source is no longer valid: `valid?` raises on it
      because it is frozen. */
  lemma DestroyThenValid(w: World, src: Source)
    requires src.kind.MemoryKind?
    ensures var d := Destroy(w, src);
      Valid(d.world, d.source).outcome == Err(FrozenObject)
  {
  }

  /** Destroying twice changes nothing further. */
  lemma DestroyIdempotent(w: World, src: Source)
    requires src.kind.MemoryKind?
    ensures var d := Destroy(w, src);
      Destroy(d.world, d.source) == d
  {
  }

  /** A store followed by a destroy of the stored source leaves the table as it
      was before the store. */
  lemma StoreThenDestroy(env: Env, w: World, src: Source, u: Uri)
    requires Store(env, w, src, u).0.Ok?
    ensures var (s, w1) := Store(env, w, src, u);
      Destroy(w1, s.value).world == w
  {
    var key := Key(u);
    var w1 := Store(env, w, src, u).1;
    assert w1.memory - {key} == w.memory;
  }
}
