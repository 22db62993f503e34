/** `Sources::ActiveRecord`: a source kept in a row of the `attachment_blobs`
    table, addressed by `db:/<id>`. */
module ActiveRecordSource {
  import opened Outcomes
  import opened Text
  import opened Uris
  import opened Metadata
  import opened Environment
  import opened Sources

  /** `ActiveRecord.store(source, uri)`: a fresh row holding the source's blob
      (the URI is ignored); the NOT NULL `blob` column refuses a nil blob. */
  function Store(env: Env, w: World, src: Source, u: Uri): (r: (Result<Source>, World))
    ensures BlobOf(env, w, src).Err? ==> r == (Err(BlobOf(env, w, src).error), w)
    ensures BlobOf(env, w, src) == Ok(None) ==> r == (Err(NullBlob), w)
    ensures BlobOf(env, w, src).Ok? && BlobOf(env, w, src).value.Some? ==>
      r.1 == w.(rows := w.rows[w.nextRow := BlobOf(env, w, src).value.value], nextRow := w.nextRow + 1)
    ensures r.0.Ok? ==>
      BlobOf(env, w, src).Ok? && BlobOf(env, w, src).value.Some? &&
      MetadataOf(env, r.1, src).Ok? &&
      r.0.value == Make(ActiveRecordKind(Some(Row(w.nextRow, BlobOf(env, w, src).value.value))),
                        MetadataOf(env, r.1, src).value)
  {
    match BlobOf(env, w, src)
    case Err(e) => (Err(e), w)
    case Ok(None) => (Err(NullBlob), w)
    case Ok(Some(b)) =>
      var id := w.nextRow;
      var w1 := w.(rows := w.rows[id := b], nextRow := id + 1);
      match MetadataOf(env, w1, src)
      case Err(e) => (Err(e), w1)
      case Ok(h) => (Ok(Make(ActiveRecordKind(Some(Row(id, b))), h)), w1)
  }

  /** The target URI plays no part in storing. */
  lemma StoreIgnoresUri(env: Env, w: World, src: Source, u1: Uri, u2: Uri)
    ensures Store(env, w, src, u1) == Store(env, w, src, u2)
  {
  }

  /** Storing keeps row ids below the next id, and the new row's id was free. */
  lemma StoreFreshRow(env: Env, w: World, src: Source, u: Uri)
    requires RowsBelowNext(w)
    ensures RowsBelowNext(Store(env, w, src, u).1)
    ensures Store(env, w, src, u).0.Ok? ==> w.nextRow !in w.rows
  {
  }

  /** `ActiveRecord.reload(uri, metadata)`: the row whose id is the last
      `/`-segment of the path; `find` raises when there is none. */
  function Reload(w: World, u: Uri, m: Meta): (r: Result<Source>)
    ensures r.Ok? <==>
      LastSegment(u.path).Some? && ParseNat(LastSegment(u.path).value).Some? &&
      ParseNat(LastSegment(u.path).value).value in w.rows
    ensures r.Ok? ==>
      var id := ParseNat(LastSegment(u.path).value).value;
      r.value == Make(ActiveRecordKind(Some(Row(id, w.rows[id]))), m)
    ensures r.Err? ==> r.error.RecordNotFound?
  {
    match LastSegment(u.path)
    case None => Err(RecordNotFound(""))
    case Some(seg) =>
      match ParseNat(seg)
      case None => Err(RecordNotFound(seg))
      case Some(id) => if id in w.rows then Ok(Make(ActiveRecordKind(Some(Row(id, w.rows[id]))), m)) else Err(RecordNotFound(seg))
  }

  /** Round trip: the URI of a stored source reloads the same row, so the
      reloaded source reads back the stored blob. */
  lemma StoreThenReload(env: Env, w: World, src: Source, u: Uri, m: Meta)
    requires Store(env, w, src, u).0.Ok?
    ensures var (s, w1) := Store(env, w, src, u);
      UriOf(s.value) == Ok(Some(DbUri(w.nextRow))) &&
      Reload(w1, DbUri(w.nextRow), m).Ok? &&
      BlobOf(env, w1, Reload(w1, DbUri(w.nextRow), m).value) == BlobOf(env, w, src)
  {
    var id := w.nextRow;
    var d := DbUri(id);
    ParseShowNat(id);
    assert LastSegment(d.path) == Some(ShowNat(id));
  }

  /** A source's URI is `db:/<id>` and it is persistent and writable. */
  lemma Accessors(row: Row, m: Meta)
    ensures var s := Make(ActiveRecordKind(Some(row)), m);
      UriOf(s) == Ok(Some(DbUri(row.id))) && PersistentOf(s) == Ok(true) && ReadonlyOf(s) == Ok(false)
  {
  }

  /** `ActiveRecord#destroy`: deletes the row, then Base#destroy clears and
      freezes. Without a row (already destroyed) `nil.destroy` raises. */
  function Destroy(w: World, src: Source): (r: Destruction)
    requires src.kind.ActiveRecordKind?
    ensures src.kind.row.None? ==> r == Destruction(Some(NilReceiver("destroy")), src, w)
    ensures src.kind.row.Some? ==>
      r.world == w.(rows := w.rows - {src.kind.row.value.id}) &&
      r.raised == (if src.frozen then Some(FrozenObject) else None)
    ensures src.kind.row.Some? && !src.frozen ==>
      r.source == Source(ActiveRecordKind(None), None, src.error, true)
  {
    match src.kind.row
    case None => Destruction(Some(NilReceiver("destroy")), src, w)
    case Some(row) => BaseDestroy(src, w.(rows := w.rows - {row.id}))
  }

  /** After a destroy the row is gone: reloading its URI fails. */
  lemma DestroyThenReload(w: World, src: Source, m: Meta)
    requires src.kind.ActiveRecordKind? && src.kind.row.Some?
    ensures Reload(Destroy(w, src).world, DbUri(src.kind.row.value.id), m).Err?
  {
    var id := src.kind.row.value.id;
    ParseShowNat(id);
    assert LastSegment(DbUri(id).path) == Some(ShowNat(id));
  }
}
