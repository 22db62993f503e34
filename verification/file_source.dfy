/** `Sources::File`: a source kept in a local file, addressed by a
    `file://localhost/...` URI or by a scheme-less path. */
module FileSource {
  import opened Outcomes
  import opened Text
  import opened Uris
  import opened Metadata
  import opened Environment
  import opened Sources
  import BlobSource

  /** `FMASK`, the mode of a stored file (octal 0644). */
  const FMASK: nat := 420

  /** `File.load(file, metadata)`: the file's expanded path under
      `file://localhost`. */
  function Load(env: Env, path: string, m: Meta): (s: Source)
    ensures UriOf(s) == Ok(Some(LocalFileUri(ExpandUser(env, path))))
    ensures s.primer == Some(m) && s.error == NoError && !s.frozen
  {
    Make(FileKind(LocalFileUri(ExpandUser(env, path))), m)
  }

  /** The loaded URI's path is canonical: `.` and `..` are gone, and it names
      the file the given path names. */
  lemma LoadCanonical(env: Env, path: string, m: Meta)
    requires !(path == "~" || (|path| >= 2 && path[..2] == "~/"))
    ensures var q := Load(env, path, m).kind.uri.path;
      Clean(Components(q)) && Resolve(env, q) == Resolve(env, path)
  {
    ExpandUserCanonical(env, path);
  }

  /** `File.reload(uri, metadata)`: no existence check. */
  function Reload(u: Uri, m: Meta): Source
  {
    Make(FileKind(u), m)
  }

  /** The directories `mkdir_p` creates for the parent of a file whose path has
      these components: every proper prefix. */
  function Ancestors(comps: seq<string>): set<string>
    decreases |comps|
  {
    if |comps| <= 1 then {}
    else Ancestors(comps[..|comps| - 1]) + {"/" + Join(comps[..|comps| - 1], '/')}
  }

  /** The stores after the parent directories of `p` exist. */
  function WithParents(w: World, p: string): World
  {
    w.(dirs := w.dirs + Ancestors(Components(p)))
  }

  /** `File.store(source, uri)`: creates the parent directories, refuses an
      existing target, copies the source's temp file there with mode 0644 and
      returns a File source at `uri` with the source's metadata. Every step
      taken before an error stays taken. */
  function Store(env: Env, w: World, src: Source, u: Uri): (r: (Result<Source>, World))
    ensures var p := Resolve(env, u.path);
      r.1.dirs == w.dirs + Ancestors(Components(p)) &&
      r.1.memory == w.memory && r.1.s3 == w.s3 && r.1.rows == w.rows && r.1.nextRow == w.nextRow
    ensures var p := Resolve(env, u.path);
      p in w.files || p in WithParents(w, p).dirs ==>
        r == (Err(StorageConflict(u.path)), WithParents(w, p))
    ensures var p := Resolve(env, u.path);
      r.1.files != w.files ==>
        p !in w.files && TempfileOf(env, WithParents(w, p), src).Ok? &&
        r.1.files == w.files[p := FileEntry(TempfileOf(env, WithParents(w, p), src).value, FMASK)]
    ensures var p := Resolve(env, u.path);
      r.0.Ok? ==>
        r.1.files != w.files &&
        MetadataOf(env, r.1, src).Ok? &&
        r.0.value == Make(FileKind(u), MetadataOf(env, r.1, src).value)
  {
    var p := Resolve(env, u.path);
    var w1 := WithParents(w, p);
    if p in w1.files || p in w1.dirs then (Err(StorageConflict(u.path)), w1)
    else
      match TempfileOf(env, w1, src)
      case Err(e) => (Err(e), w1)
      case Ok(data) =>
        var w2 := w1.(files := w1.files[p := FileEntry(data, FMASK)]);
        match MetadataOf(env, w2, src)
        case Err(e) => (Err(e), w2)
        case Ok(h) => (Ok(Make(FileKind(u), h)), w2)
  }

  /** Storing a Blob writes exactly its data with mode 0644, so the stored file
      has the source's size and reads back the source's blob. */
  lemma StoreBlob(env: Env, w: World, data: Bytes, m: Meta, u: Uri)
    requires Store(env, w, BlobSource.New(data, m), u).0.Ok?
    ensures var (s, w1) := Store(env, w, BlobSource.New(data, m), u);
      w1.files[Resolve(env, u.path)] == FileEntry(data, FMASK) &&
      BlobOf(env, w1, s.value) == Ok(Some(data)) &&
      SizeOf(env, w1, s.value) == SizeOf(env, w, BlobSource.New(data, m))
  {
    var p := Resolve(env, u.path);
    BlobSource.Accessors(env, WithParents(w, p), data, m);
    BlobSource.Accessors(env, w, data, m);
    var src := BlobSource.New(data, m);
    assert TempfileOf(env, WithParents(w, p), src) == BaseTempfile(env, WithParents(w, p), src);
    assert FilenameOf(env, WithParents(w, p), src).Ok?;
    assert TempfileOf(env, WithParents(w, p), src) == Ok(data);
    var (s, w1) := Store(env, w, src, u);
    assert w1.files[p] == FileEntry(data, FMASK);
    assert BlobOf(env, w1, s.value) == Ok(Some(data));
    assert SizeOf(env, w1, s.value) == BaseSize(env, w1, s.value);
  }

  /** `File#valid?`: true when the path opens; otherwise false with the
      ENOENT message recorded, which raises on a frozen source. */
  function Valid(env: Env, w: World, src: Source): (r: Validation)
    requires src.kind.FileKind?
    ensures var p := Resolve(env, src.kind.uri.path);
      (r.outcome == Ok(true) <==> p in w.files || p in w.dirs) &&
      (r.outcome.Err? <==> p !in w.files && p !in w.dirs && src.frozen) &&
      (r.outcome == Ok(false) ==> r.source == src.(error := Message(Enoent(src.kind.uri.path)))) &&
      (r.outcome != Ok(false) ==> r.source == src)
  {
    var p := Resolve(env, src.kind.uri.path);
    if p in w.files || p in w.dirs then Validation(Ok(true), src)
    else if src.frozen then Validation(Err(FrozenObject), src)
    else Validation(Ok(false), src.(error := Message(Enoent(src.kind.uri.path))))
  }

  /** `File#destroy`: deletes the file, ignores a missing one, always freezes
      and keeps the metadata. */
  function Destroy(env: Env, w: World, src: Source): (r: Destruction)
    requires src.kind.FileKind?
    ensures r.raised.None?
    ensures r.world.files == w.files - {Resolve(env, src.kind.uri.path)}
    ensures r.world == w.(files := r.world.files)
    ensures r.source == src.(frozen := true)
  {
    Destruction(None, src.(frozen := true), w.(files := w.files - {Resolve(env, src.kind.uri.path)}))
  }

  /** Destroying twice changes nothing further: the second delete finds no file. */
  lemma DestroyIdempotent(env: Env, w: World, src: Source)
    requires src.kind.FileKind?
    ensures var d := Destroy(env, w, src);
      Destroy(env, d.world, d.source) == d
  {
  }

  /** The filename and MIME type fall back to the path's base name and its
      extension only when the primer metadata lacks them. */
  lemma NameFallbacks(env: Env, w: World, u: Uri, m: Meta)
    ensures FilenameOf(env, w, Reload(u, m)) == Ok(Or(Lookup(m, FILENAME), Str(Basename(u.path))))
    ensures MimeTypeOf(env, w, Reload(u, m)) == Ok(Or(Lookup(m, MIME_TYPE), MimeFromName(env.extensions, u.path)))
    ensures PersistentOf(Reload(u, m)) == Ok(true)
  {
  }

  /** A file below the public root is published at `/` plus its path relative
      to that root; `.` and `..` in either path are folded first. */
  lemma PublicUriBelow(env: Env, w: World, u: Uri, m: Meta, rest: seq<string>)
    requires Resolve(env, u.path) in w.files && Exists(w, Resolve(env, env.publicPath))
    requires Components(Resolve(env, u.path)) == Components(Resolve(env, env.publicPath)) + rest
    requires rest != [] && !HasDoubleDot(Join(rest, '/'))
    ensures PublicUriOf(env, w, Reload(u, m)) == Ok(Some(PathUri("/" + Join(rest, '/'))))
  {
    RelativeBelow(Components(Resolve(env, env.publicPath)), rest);
  }

  /** A file whose resolved path leaves the public root after its first `k`
      components has no public URI. */
  lemma PublicUriOutside(env: Env, w: World, u: Uri, m: Meta, k: nat)
    requires Resolve(env, u.path) in w.files && Exists(w, Resolve(env, env.publicPath))
    requires var dest, base := Components(Resolve(env, u.path)), Components(Resolve(env, env.publicPath));
      k < |base| && k <= |dest| && dest[..k] == base[..k] && (k == |dest| || dest[k] != base[k])
    ensures PublicUriOf(env, w, Reload(u, m)) == Ok(None)
  {
    var dest, base := Components(Resolve(env, u.path)), Components(Resolve(env, env.publicPath));
    RelativeOutside(dest, base, k);
    JoinStartsWithDots(RelativeComponents(dest, base));
  }

  /** `p/c/../q` is the same file as `p/q`: it opens, is stored over, is
      destroyed and is published as that file. */
  lemma ParentFolded(env: Env, w: World, p: string, c: string, q: string, m: Meta)
    requires |p| > 0 && p[0] == '/' && PlainComponent(c)
    ensures var a, b := PathUri(p + "/" + c + "/" + ".." + "/" + q), PathUri(p + "/" + q);
      Valid(env, w, Reload(a, m)).outcome == Valid(env, w, Reload(b, m)).outcome &&
      Destroy(env, w, Reload(a, m)).world == Destroy(env, w, Reload(b, m)).world &&
      PublicUriOf(env, w, Reload(a, m)) == PublicUriOf(env, w, Reload(b, m))
  {
    ExpandFoldsParent(env.cwd, p, c, q);
  }
}
