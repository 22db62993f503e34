/** `Sources::EXIFR`: a read-only wrapper that adds a JPEG's EXIF data to the
    wrapped source's metadata and delegates everything else. */
module ExifrSource {
  import opened Outcomes
  import opened Metadata
  import opened Environment
  import opened Sources

  /** `EXIFR.new(source)`: the primer metadata is an empty hash. */
  function New(inner: Source): Source
  {
    Source(ExifrKind(inner), Some(map[]), NoError, false)
  }

  /** `EXIFR#process`: the wrapper itself, whatever the transform. */
  function Process(src: Source, transform: string): Source
  {
    src
  }

  /** The flags, names, URI and data are the wrapped source's. */
  lemma Delegation(env: Env, w: World, inner: Source, transform: string)
    ensures var s := Process(New(inner), transform);
      PersistentOf(s) == PersistentOf(inner) && ReadonlyOf(s) == ReadonlyOf(inner) &&
      MimeTypeOf(env, w, s) == MimeTypeOf(env, w, inner) && FilenameOf(env, w, s) == FilenameOf(env, w, inner) &&
      UriOf(s) == UriOf(inner) && BlobOf(env, w, s) == BlobOf(env, w, inner)
  {
  }

  /** A MIME type other than `:jpg` or `:tif` makes the metadata raise once
      Base's part of it is computed. */
  lemma UnsupportedMimeRaises(env: Env, w: World, inner: Source)
    requires BaseMetadata(env, w, New(inner)).Ok?
    requires MimeTypeOf(env, w, inner).Ok? && ToSym(MimeTypeOf(env, w, inner).value).Ok?
    requires ToSym(MimeTypeOf(env, w, inner).value).value !in {Some("jpg"), Some("tif")}
    ensures MetadataOf(env, w, New(inner)) == Err(UnsupportedMime)
  {
  }

  /** The augmentation reverse-merges the EXIF entries, so no existing entry
      is overwritten except the dimensions EXIFR reports and `:time`;
      `:time` comes from `:date_time_original` (removed) or else `:date_time`
      (then removed too). */
  lemma AugmentFacts(h: Meta, img: ExifImage)
    ensures var r := AugmentWithExif(h, img);
      var merged := if img.exif.Some? then ReverseMerge(h, img.exif.value) else h;
      (forall k :: k in h && k != HEIGHT && k != WIDTH && k != TIME && k != DATE_TIME && k != DATE_TIME_ORIGINAL ==>
         r[k] == h[k]) &&
      (img.exif.Some? ==>
         forall k :: (k in img.exif.value && k !in h &&
           k != HEIGHT && k != WIDTH && k != TIME && k != DATE_TIME && k != DATE_TIME_ORIGINAL) ==>
           r[k] == img.exif.value[k]) &&
      (img.height.Some? ==> r[HEIGHT] == Int(img.height.value)) &&
      (img.height.None? ==> Lookup(r, HEIGHT) == Lookup(merged, HEIGHT)) &&
      (img.width.Some? ==> r[WIDTH] == Int(img.width.value)) &&
      (img.width.None? ==> Lookup(r, WIDTH) == Lookup(merged, WIDTH)) &&
      DATE_TIME_ORIGINAL !in r &&
      r[TIME] == Or(Lookup(merged, DATE_TIME_ORIGINAL), Lookup(merged, DATE_TIME)) &&
      (DATE_TIME in r <==> Truthy(Lookup(merged, DATE_TIME_ORIGINAL)) && DATE_TIME in merged)
  {
    AugmentKeeps(h, img);
    AugmentDimensions(h, img);
    AugmentTime(h, img);
  }

  lemma AugmentKeeps(h: Meta, img: ExifImage)
    ensures var r := AugmentWithExif(h, img);
      (forall k :: k in h && k != HEIGHT && k != WIDTH && k != TIME && k != DATE_TIME && k != DATE_TIME_ORIGINAL ==>
         r[k] == h[k]) &&
      (img.exif.Some? ==>
         forall k :: (k in img.exif.value && k !in h &&
           k != HEIGHT && k != WIDTH && k != TIME && k != DATE_TIME && k != DATE_TIME_ORIGINAL) ==>
           r[k] == img.exif.value[k])
  {
  }

  lemma AugmentDimensions(h: Meta, img: ExifImage)
    ensures var r := AugmentWithExif(h, img);
      var merged := if img.exif.Some? then ReverseMerge(h, img.exif.value) else h;
      (img.height.Some? ==> r[HEIGHT] == Int(img.height.value)) &&
      (img.height.None? ==> Lookup(r, HEIGHT) == Lookup(merged, HEIGHT)) &&
      (img.width.Some? ==> r[WIDTH] == Int(img.width.value)) &&
      (img.width.None? ==> Lookup(r, WIDTH) == Lookup(merged, WIDTH))
  {
  }

  lemma AugmentTime(h: Meta, img: ExifImage)
    ensures var r := AugmentWithExif(h, img);
      var merged := if img.exif.Some? then ReverseMerge(h, img.exif.value) else h;
      DATE_TIME_ORIGINAL !in r &&
      r[TIME] == Or(Lookup(merged, DATE_TIME_ORIGINAL), Lookup(merged, DATE_TIME)) &&
      (DATE_TIME in r <==> Truthy(Lookup(merged, DATE_TIME_ORIGINAL)) && DATE_TIME in merged)
  {
  }

  /** The metadata of an EXIFR wrapper is Base's metadata augmented with what
      EXIFR reads. */
  lemma MetadataIsAugmented(env: Env, w: World, inner: Source)
    requires MetadataOf(env, w, New(inner)).Ok?
    ensures BaseMetadata(env, w, New(inner)).Ok? && ExifrImage(env, w, inner).Ok?
    ensures MetadataOf(env, w, New(inner)) ==
      Ok(AugmentWithExif(BaseMetadata(env, w, New(inner)).value, ExifrImage(env, w, inner).value))
  {
  }
}
