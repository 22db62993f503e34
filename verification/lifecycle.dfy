/** `valid?` and `destroy` as Ruby dispatches them: each backend that
    overrides them, and Base for the rest. */
module Lifecycle {
  import opened Outcomes
  import opened Environment
  import opened Sources
  import MemorySource
  import FileSource
  import LocalAssetSource
  import ActiveRecordSource
  import S3Source
  import HttpSource

  /** `source.valid?`. */
  function Valid(env: Env, w: World, src: Source): (r: Validation)
    ensures (src.kind.Bare? || src.kind.BlobKind? || src.kind.ActiveRecordKind? ||
             src.kind.RmagickKind? || src.kind.ExifrKind?) ==> r == BaseValid(src)
    ensures r.outcome == Ok(true) ==> r.source.error == src.error
  {
    match src.kind
    case MemoryKind(_) => MemorySource.Valid(w, src)
    case FileKind(_) => FileSource.Valid(env, w, src)
    case LocalAssetKind(_) => LocalAssetSource.Valid(env, w, src)
    case S3Kind(_) => S3Source.Valid(w, src)
    case HttpKind(_, _) => HttpSource.Valid(env, src)
    case _ => BaseValid(src)
  }

  /** `source.destroy`. */
  function Destroy(env: Env, w: World, src: Source): (r: Destruction)
    ensures (src.kind.Bare? || src.kind.BlobKind? || src.kind.HttpKind? ||
             src.kind.RmagickKind? || src.kind.ExifrKind?) ==> r == BaseDestroy(src, w)
    ensures src.kind.LocalAssetKind? ==> r == Destruction(None, src, w)
  {
    match src.kind
    case MemoryKind(_) => MemorySource.Destroy(w, src)
    case FileKind(_) => FileSource.Destroy(env, w, src)
    case LocalAssetKind(_) => LocalAssetSource.Destroy(w, src)
    case ActiveRecordKind(_) => ActiveRecordSource.Destroy(w, src)
    case S3Kind(_) => S3Source.Destroy(w, src)
    case _ => BaseDestroy(src, w)
  }

  /** Every destroy that completes leaves the source frozen, except a local
      asset's, which does nothing at all. */
  lemma DestroyFreezes(env: Env, w: World, src: Source)
    requires Destroy(env, w, src).raised.None?
    ensures src.kind.LocalAssetKind? ==> Destroy(env, w, src).source == src
    ensures !src.kind.LocalAssetKind? ==> Destroy(env, w, src).source.frozen
  {
  }

  /** Only the source's own entry leaves the stores: nothing is added, and
      the entries of other keys, paths, objects and rows stay. */
  lemma DestroyOnlyRemoves(env: Env, w: World, src: Source)
    ensures var w1 := Destroy(env, w, src).world;
      w1.memory.Keys <= w.memory.Keys && w1.files.Keys <= w.files.Keys &&
      w1.s3.Keys <= w.s3.Keys && w1.rows.Keys <= w.rows.Keys &&
      (forall k :: k in w1.memory ==> w1.memory[k] == w.memory[k]) &&
      (forall p :: p in w1.files ==> w1.files[p] == w.files[p]) &&
      (forall o :: o in w1.s3 ==> w1.s3[o] == w.s3[o]) &&
      (forall id :: id in w1.rows ==> w1.rows[id] == w.rows[id]) &&
      w1.dirs == w.dirs && w1.nextRow == w.nextRow
  {
    var w1 := Destroy(env, w, src).world;
    match src.kind {
      case MemoryKind(_) => assert w1 == w.(memory := w1.memory);
      case FileKind(_) => assert w1 == w.(files := w1.files);
      case ActiveRecordKind(row) =>
        assert w1 == w || (row.Some? && w1 == w.(rows := w.rows - {row.value.id}));
      case S3Kind(u) =>
        assert w1 == w || (S3Location(u).Some? && w1 == w.(s3 := w.s3 - {S3Location(u).value}));
      case _ => assert w1 == w;
    }
  }
}
