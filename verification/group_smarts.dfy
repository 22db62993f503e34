/** The RMagick source of the earlier group_smarts revision: its preset
    table, its preset-only `process`, and the thumbnail file naming
    `adjusted_filename_for`, which moves a trailing `.ext` after `_<aspect>`. */
module GroupSmarts {
  import opened Outcomes
  import opened Text
  import opened Uris
  import opened Metadata
  import opened Environment
  import RmagickSource

  /** `StandardImageGeometry`: plain boxes (no shrink-only flag) and a pixel bound. */
  const StandardImageGeometry: map<string, Geometry> := map[
    "thumbnail" := Box(128, 128, false),
    "vignette" := Box(256, 256, false),
    "proof" := Box(512, 512, false),
    "max" := Area(2097152)]

  /** The current revision keeps the same four presets and sizes and only adds
      the shrink-only flag to the boxes. */
  lemma PresetsAgree()
    ensures StandardImageGeometry.Keys == RmagickSource.Presets.Keys
    ensures forall name :: name in StandardImageGeometry ==>
      var (g, h) := (StandardImageGeometry[name], RmagickSource.Presets[name]);
      (g.Box? <==> h.Box?) &&
      (g.Box? ==> g.width == h.width && g.height == h.height && !g.shrinkOnly && h.shrinkOnly) &&
      (g.Area? ==> g == h)
  {
    assert StandardImageGeometry.Keys == {"thumbnail", "vignette", "proof", "max"};
    assert RmagickSource.Presets.Keys == {"thumbnail", "vignette", "proof", "max"};
  }

  // ---------------------------------------------------------------------------
  // Thumbnail names
  // ---------------------------------------------------------------------------

  /** Ruby's `\w` without `$KCODE`: ASCII letters, digits and `_`. */
  predicate IsWord(c: char) {
    ('a' <= c <= 'z') || ('A' <= c <= 'Z') || ('0' <= c <= '9') || c == '_'
  }

  predicate AllWord(s: string) {
    forall i :: 0 <= i < |s| ==> IsWord(s[i])
  }

  /** The match of `/\.\w+$/` in one line: from its last dot, when only word
      characters (at least one) follow that dot. */
  function LineExtension(line: string): (r: Option<string>)
    ensures r.Some? ==> (|r.value| >= 2 && |r.value| <= |line| && r.value[0] == '.' &&
      AllWord(r.value[1..]) && r.value == line[|line| - |r.value|..])
  {
    var i := AfterLast(line, '.');
    if 0 < i < |line| && AllWord(line[i..]) then Some(line[i - 1..]) else None
  }

  /** A line with its extension match removed. */
  function WithoutExtension(line: string): (r: string)
    ensures LineExtension(line).Some? ==> line == r + LineExtension(line).value
    ensures LineExtension(line).None? ==> r == line
  {
    match LineExtension(line)
    case Some(e) => line[..|line| - |e|]
    case None => line
  }

  /** The last extension match over all lines (the block of the `gsub`
      records each match, so the last one wins). */
  function LastExtension(s: string): Option<string>
    decreases |s|
  {
    if '\n' in s then
      var i := IndexOf(s, '\n');
      var rest := LastExtension(s[i + 1..]);
      if rest.Some? then rest else LineExtension(s[..i])
    else LineExtension(s)
  }

  /** `adjusted_filename_for(filename, aspect)`: a blank aspect leaves the
      name; otherwise every line loses its `.\w+` ending and the result is
      `<rest>_<aspect><last ending>`. */
  function AdjustedFilenameFor(filename: string, aspect: Option<string>): (r: string)
    ensures aspect.None? || Blank(aspect.value) ==> r == filename
  {
    if aspect.None? || Blank(aspect.value) then filename
    else
      var ext := LastExtension(filename);
      MapLines(filename, WithoutExtension) + "_" + aspect.value + (if ext.Some? then ext.value else "")
  }

  /** `foo.jpg` with aspect `thumbnail` becomes `foo_thumbnail.jpg`: the
      extension moves behind the aspect. */
  lemma AdjustedDotted(stem: string, ext: string, aspect: string)
    requires '\n' !in stem && ext != "" && AllWord(ext) && !Blank(aspect)
    ensures AdjustedFilenameFor(stem + "." + ext, Some(aspect)) == stem + "_" + aspect + "." + ext
  {
    var name := stem + "." + ext;
    assert '.' !in ext by {
      forall k | 0 <= k < |ext| ensures ext[k] != '.' { assert IsWord(ext[k]); }
    }
    assert forall k :: |stem| < k < |name| ==> name[k] == ext[k - |stem| - 1];
    AfterLastAt(name, '.', |stem|);
    assert name[|stem| + 1..] == ext;
    assert LineExtension(name) == Some("." + ext) by {
      assert name[|stem|..] == "." + ext;
    }
    assert '\n' !in name by {
      forall k | 0 <= k < |name| ensures name[k] != '\n' {
        if k > |stem| { assert IsWord(ext[k - |stem| - 1]); }
      }
    }
    assert WithoutExtension(name) == stem;
  }

  /** A name without a dot gains `_<aspect>` at its end. */
  lemma AdjustedPlain(name: string, aspect: string)
    requires '\n' !in name && '.' !in name && !Blank(aspect)
    ensures AdjustedFilenameFor(name, Some(aspect)) == name + "_" + aspect
  {
    assert AfterLast(name, '.') == 0;
  }

  // ---------------------------------------------------------------------------
  // Processing
  // ---------------------------------------------------------------------------

  /** The state of a group_smarts RMagick source: the decoded image, the aspect
      it was processed to, and the URI and blob it still reports. */
  datatype Resized = Resized(image: Image, aspect: Option<string>, uri: Option<Uri>, blob: Option<Bytes>)

  /** `Rmagick.new(source)`: the wrapped source's URI and blob, not processed. */
  function New(image: Image, uri: Option<Uri>, blob: Option<Bytes>): Resized
  {
    Resized(image, None, uri, blob)
  }

  /** `Rmagick#process(transform)`: a preset resizes the image within its
      geometry and forgets the URI and blob; any other name raises. */
  function Process(magick: Magick, st: Resized, transform: string): (r: Result<Resized>)
    ensures transform !in StandardImageGeometry <==> r.Err?
    ensures r.Err? ==> r.error == UnknownTransform(transform)
    ensures r.Ok? ==>
      r.value.uri.None? && r.value.blob.None? && r.value.aspect == Some(transform) &&
      r.value.image == magick.resize(st.image, StandardImageGeometry[transform])
  {
    if transform in StandardImageGeometry then
      Ok(Resized(magick.resize(st.image, StandardImageGeometry[transform]), Some(transform), None, None))
    else Err(UnknownTransform(transform))
  }

  /** `Rmagick#filename`. */
  function Filename(sourceName: string, st: Resized): string
  {
    AdjustedFilenameFor(sourceName, st.aspect)
  }

  /** A new wrapper keeps the source's name; a processed one carries the preset
      before the extension. */
  lemma ProcessedName(magick: Magick, image: Image, uri: Option<Uri>, blob: Option<Bytes>,
                      stem: string, ext: string, transform: string)
    requires '\n' !in stem && ext != "" && AllWord(ext)
    requires transform in StandardImageGeometry
    ensures Filename(stem + "." + ext, New(image, uri, blob)) == stem + "." + ext
    ensures Process(magick, New(image, uri, blob), transform).Ok?
    ensures Filename(stem + "." + ext, Process(magick, New(image, uri, blob), transform).value) ==
      stem + "_" + transform + "." + ext
  {
    assert transform in {"thumbnail", "vignette", "proof", "max"};
    assert !Blank(transform) by {
      assert !IsSpace(transform[0]);
    }
    AdjustedDotted(stem, ext, transform);
  }
}
