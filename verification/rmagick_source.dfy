/** `Sources::Rmagick`: a wrapper that decodes another source's data as an
    image, resizes it to one of the standard geometries and describes the
    result. */
module RmagickSource {
  import opened Outcomes
  import opened Text
  import opened Uris
  import opened Metadata
  import opened Environment
  import opened Sources

  /** `StandardImageGeometry`: three shrink-only bounding boxes and a
      two-megapixel area bound. */
  const Presets: map<string, Geometry> := map[
    "thumbnail" := Box(128, 128, true),
    "vignette" := Box(256, 256, true),
    "proof" := Box(512, 512, true),
    "max" := Area(2097152)]

  /** `Rmagick.new(source)`: copies the wrapped source's URI, blob and
      persistence; the primer metadata is an empty hash. */
  function New(env: Env, w: World, inner: Source): (r: Result<Source>)
    ensures r.Ok? <==> UriOf(inner).Ok? && BlobOf(env, w, inner).Ok? && PersistentOf(inner).Ok?
    ensures r.Ok? ==>
      UriOf(r.value) == UriOf(inner) && PersistentOf(r.value) == PersistentOf(inner) &&
      ReadonlyOf(r.value) == Ok(false) && r.value.primer == Some(map[]) &&
      r.value.kind.RmagickKind? && r.value.kind.inner == inner && r.value.kind.state.aspect.None?
    ensures r.Ok? && BlobOf(env, w, inner).value.Some? ==> BlobOf(env, w, r.value) == BlobOf(env, w, inner)
  {
    var u :- UriOf(inner);
    var b :- BlobOf(env, w, inner);
    var p :- PersistentOf(inner);
    Ok(Source(RmagickKind(inner, RmagickState(None, None, u, b, None, p)), Some(map[]), NoError, false))
  }

  /** `Rmagick#process(name)`: an unknown name raises before anything changes;
      otherwise the image is resized to the preset geometry and the URI, the
      cached blob and temp file and the persistence are dropped. */
  function Process(env: Env, w: World, src: Source, name: string): (r: Result<Source>)
    requires src.kind.RmagickKind?
    ensures name !in Presets ==> r == Err(UnknownTransform(name))
    ensures name in Presets && ImageOf(env, w, src.kind.inner, src.kind.state).Ok? && !src.frozen ==> r.Ok?
    ensures src.frozen ==> r.Err?
    ensures r.Ok? ==>
      UriOf(r.value) == Ok(None) && PersistentOf(r.value) == Ok(false) && ReadonlyOf(r.value) == Ok(false) &&
      r.value.kind.RmagickKind? && r.value.kind.inner == src.kind.inner && r.value.primer == src.primer &&
      r.value.kind.state.blob.None? && r.value.kind.state.tempfile.None? &&
      r.value.kind.state.aspect == Some(name) &&
      ImageOf(env, w, src.kind.inner, src.kind.state).Ok? &&
      r.value.kind.state.image ==
        Some(env.magick.resize(ImageOf(env, w, src.kind.inner, src.kind.state).value, Presets[name]))
  {
    if name !in Presets then Err(UnknownTransform(name))
    else
      var img :- ImageOf(env, w, src.kind.inner, src.kind.state);
      if src.frozen then Err(FrozenObject)
      else
        var resized := env.magick.resize(img, Presets[name]);
        Ok(src.(kind := RmagickKind(src.kind.inner, RmagickState(Some(resized), Some(name), None, None, None, false))))
  }

  /** After processing, the blob is the encoding of the resized image. */
  lemma ProcessedBlob(env: Env, w: World, src: Source, name: string)
    requires src.kind.RmagickKind?
    requires Process(env, w, src, name).Ok?
    ensures BlobOf(env, w, Process(env, w, src, name).value) ==
      Ok(Some(env.magick.toBlob(Process(env, w, src, name).value.kind.state.image.value)))
  {
  }

  /** The resized name of `stem.ext`: the stem, `_aspect` when there is an
      aspect, then `.` and the symbol. */
  lemma ResizedNameOf(stem: string, ext: string, aspect: Option<string>, sym: Option<string>)
    requires stem != "" && ext != "" && '/' !in stem && '/' !in ext && '.' !in ext
    ensures aspect.Some? ==>
      ResizedName(stem + "." + ext, aspect, sym) == stem + "_" + aspect.value + "." + SymbolText(sym)
    ensures aspect.None? ==>
      ResizedName(stem + "." + ext, aspect, sym) == stem + "." + SymbolText(sym)
  {
    DottedName(stem, ext);
    ResizedOfStem(stem + "." + ext, stem, aspect, sym);
  }

  lemma ResizedOfStem(n: string, stem: string, aspect: Option<string>, sym: Option<string>)
    requires BasenameWithout(n, Extname(n)) == stem
    ensures aspect.Some? ==> ResizedName(n, aspect, sym) == stem + "_" + aspect.value + "." + SymbolText(sym)
    ensures aspect.None? ==> ResizedName(n, aspect, sym) == stem + "." + SymbolText(sym)
  {
    if aspect.Some? {
      assert ResizedName(n, aspect, sym) == stem + ("_" + aspect.value) + "." + SymbolText(sym);
      Regroup(stem, "_", aspect.value);
    } else {
      assert ResizedName(n, aspect, sym) == stem + "" + "." + SymbolText(sym);
      assert stem + "" == stem;
    }
  }

  lemma Regroup(a: string, b: string, c: string)
    ensures a + (b + c) == a + b + c
  {
  }

  /** The file name of a processed wrapper around `stem.ext` is
      `stem_<preset>.<symbol>`, the symbol being that of the resized image's
      MIME type. */
  lemma ProcessedFilename(env: Env, w: World, src: Source, name: string, stem: string, ext: string)
    requires src.kind.RmagickKind?
    requires Process(env, w, src, name).Ok?
    requires FilenameOf(env, w, src.kind.inner) == Ok(Str(stem + "." + ext))
    requires stem != "" && ext != "" && '/' !in stem && '/' !in ext && '.' !in ext
    ensures var s := Process(env, w, src, name).value;
      FilenameOf(env, w, s) ==
        Ok(Str(stem + "_" + name + "." + SymbolText(LookupMime(env.mimeTypes, s.kind.state.image.value.mimeType).symbol)))
  {
    var s := Process(env, w, src, name).value;
    var st := s.kind.state;
    var sym := LookupMime(env.mimeTypes, st.image.value.mimeType).symbol;
    assert ImageOf(env, w, src.kind.inner, st) == Ok(st.image.value);
    ResizedNameOf(stem, ext, Some(name), sym);
  }

  /** Before processing there is no aspect: a wrapper around `stem.ext` is
      named `stem.<symbol>`. */
  lemma UnprocessedFilename(env: Env, w: World, inner: Source, stem: string, ext: string)
    requires New(env, w, inner).Ok?
    requires FilenameOf(env, w, inner) == Ok(Str(stem + "." + ext))
    requires stem != "" && ext != "" && '/' !in stem && '/' !in ext && '.' !in ext
    requires ImageOf(env, w, inner, New(env, w, inner).value.kind.state).Ok?
    ensures var s := New(env, w, inner).value;
      var img := ImageOf(env, w, inner, s.kind.state).value;
      FilenameOf(env, w, s) == Ok(Str(stem + "." + SymbolText(LookupMime(env.mimeTypes, img.mimeType).symbol)))
  {
    var s := New(env, w, inner).value;
    var img := ImageOf(env, w, inner, s.kind.state).value;
    var sym := LookupMime(env.mimeTypes, img.mimeType).symbol;
    ResizedNameOf(stem, ext, None, sym);
  }

  /** The metadata fails only when Base's metadata or the image does: EXIF
      trouble is swallowed. */
  lemma MetadataDefined(env: Env, w: World, src: Source)
    requires src.kind.RmagickKind?
    ensures MetadataOf(env, w, src).Ok? <==>
      BaseMetadata(env, w, src).Ok? && ImageOf(env, w, src.kind.inner, src.kind.state).Ok?
  {
  }

  /** The metadata of an RMagick wrapper: Base's hash merged with the EXIF
      data, then the image's height and width. */
  lemma MetadataUnfolds(env: Env, w: World, src: Source)
    requires src.kind.RmagickKind?
    requires MetadataOf(env, w, src).Ok?
    ensures BaseMetadata(env, w, src).Ok? && ImageOf(env, w, src.kind.inner, src.kind.state).Ok?
    ensures var img := ImageOf(env, w, src.kind.inner, src.kind.state).value;
      MetadataOf(env, w, src).value ==
        (BaseMetadata(env, w, src).value + ExifData(env, img))[HEIGHT := Int(img.rows)][WIDTH := Int(img.columns)]
  {
  }

  /** Height and width always come from the image, overriding the primer; the
      other entries are Base's, except a `:time` read from the EXIF data. */
  lemma MetadataShape(env: Env, w: World, src: Source)
    requires src.kind.RmagickKind?
    requires MetadataOf(env, w, src).Ok?
    ensures BaseMetadata(env, w, src).Ok? && ImageOf(env, w, src.kind.inner, src.kind.state).Ok?
    ensures var h, base := MetadataOf(env, w, src).value, BaseMetadata(env, w, src).value;
      var img := ImageOf(env, w, src.kind.inner, src.kind.state).value;
      h[HEIGHT] == Int(img.rows) && h[WIDTH] == Int(img.columns) &&
      (forall k :: k in base && k != HEIGHT && k != WIDTH && k != TIME ==> h[k] == base[k]) &&
      (TIME in h && TIME !in base ==> h[TIME].Time?)
  {
    MetadataUnfolds(env, w, src);
    var base := BaseMetadata(env, w, src).value;
    var img := ImageOf(env, w, src.kind.inner, src.kind.state).value;
    MergeFacts(base, ExifData(env, img), img.rows, img.columns);
  }

  /** What the merge keeps: every entry of `base` the EXIF hash (at most
      `:time`) and the dimensions do not replace. */
  lemma MergeFacts(base: Meta, e: Meta, rows: nat, columns: nat)
    requires e.Keys <= {TIME}
    requires TIME in e ==> e[TIME].Time?
    ensures var h := (base + e)[HEIGHT := Int(rows)][WIDTH := Int(columns)];
      h[HEIGHT] == Int(rows) && h[WIDTH] == Int(columns) &&
      (forall k :: k in base && k != HEIGHT && k != WIDTH && k != TIME ==> h[k] == base[k]) &&
      (TIME in h && TIME !in base ==> h[TIME].Time?)
  {
    var h := (base + e)[HEIGHT := Int(rows)][WIDTH := Int(columns)];
    forall k | k in base && k != HEIGHT && k != WIDTH && k != TIME
      ensures h[k] == base[k]
    {
      assert k !in e;
    }
  }
}
