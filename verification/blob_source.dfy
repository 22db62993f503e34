/** `Sources::Blob`: primer data held in memory; everything else is Base's. */
module BlobSource {
  import opened Outcomes
  import opened Metadata
  import opened Environment
  import opened Sources

  /** `Blob.new(data, metadata)`, as `Base.load` builds it for a String. */
  function New(data: Bytes, m: Meta): Source
  {
    Make(BlobKind(Some(data)), m)
  }

  /** The blob is exactly the constructor's data, the size its length and the
      digest its MD5; Blob has no URI and answers neither flag. */
  lemma Accessors(env: Env, w: World, data: Bytes, m: Meta)
    ensures BlobOf(env, w, New(data, m)) == Ok(Some(data))
    ensures SizeOf(env, w, New(data, m)) == Ok(Int(|data|))
    ensures DigestOf(env, w, New(data, m)) == Ok(Binary(env.md5(data)))
    ensures UriOf(New(data, m)) == Ok(None)
    ensures PersistentOf(New(data, m)) == Err(NotImplemented)
    ensures ReadonlyOf(New(data, m)) == Err(NotImplemented)
  {
  }

  /** The metadata of a Blob: the primer entries other than the four computed
      ones are kept; the filename defaults to "attachment"; digest and size are
      always present; the MIME type is present exactly when the primer has it. */
  lemma MetadataShape(env: Env, w: World, data: Bytes, m: Meta)
    ensures MetadataOf(env, w, New(data, m)).Ok?
    ensures var h := MetadataOf(env, w, New(data, m)).value;
      h[FILENAME] == Or(Lookup(m, FILENAME), Str("attachment")) &&
      h[DIGEST] == Binary(env.md5(data)) &&
      h[SIZE] == Int(|data|) &&
      (MIME_TYPE in h <==> MIME_TYPE in m) &&
      (MIME_TYPE in m ==> h[MIME_TYPE] == m[MIME_TYPE]) &&
      h.Keys == m.Keys + {FILENAME, DIGEST, SIZE} &&
      forall k :: k in m && k !in {MIME_TYPE, FILENAME, DIGEST, SIZE} ==> h[k] == m[k]
  {
    Accessors(env, w, data, m);
  }
}
