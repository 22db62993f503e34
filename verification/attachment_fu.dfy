/** The attachment_fu helpers the attachment sources grew out of: file name
    sanitising and the option defaults of `has_attachment`. */
module AttachmentFu {
  import opened Outcomes
  import opened Text
  import opened ContentTypes

  // ---------------------------------------------------------------------------
  // File names
  // ---------------------------------------------------------------------------

  predicate IsSeparator(c: char) {
    c == '/' || c == '\\'
  }

  /** The characters a sanitised name keeps: `[\w.-]`, ASCII only. */
  predicate IsSafe(c: char) {
    ('a' <= c <= 'z') || ('A' <= c <= 'Z') || ('0' <= c <= '9') || c == '_' || c == '.' || c == '-'
  }

  /** Position just after the last separator of `s`, or 0 when there is none. */
  function AfterLastSeparator(s: string): (i: nat)
    ensures i <= |s|
    ensures forall k :: i <= k < |s| ==> !IsSeparator(s[k])
    ensures i > 0 ==> IsSeparator(s[i - 1])
  {
    if |s| == 0 then 0
    else if IsSeparator(s[|s| - 1]) then |s|
    else AfterLastSeparator(s[..|s| - 1])
  }

  /** `gsub(/^.*(\\|\/)/, '')` on one line: everything up to and including the
      last separator goes. */
  function DropDirectory(line: string): (r: string)
    ensures forall k :: 0 <= k < |r| ==> !IsSeparator(r[k])
    ensures |r| <= |line| && r == line[|line| - |r|..]
  {
    line[AfterLastSeparator(line)..]
  }

  /** `gsub(/[^\w\.\-]/, '_')`. */
  function ReplaceUnsafe(s: string): (r: string)
    ensures |r| == |s|
    ensures forall k :: 0 <= k < |s| ==> r[k] == (if IsSafe(s[k]) then s[k] else '_')
  {
    if |s| == 0 then "" else [if IsSafe(s[0]) then s[0] else '_'] + ReplaceUnsafe(s[1..])
  }

  /** The sanitising of a present name: strip, drop the directory part of
      each line, replace unsafe characters. */
  function Sanitize(name: string): (r: string)
    ensures forall k :: 0 <= k < |r| ==> IsSafe(r[k])
  {
    ReplaceUnsafe(MapLines(Strip(name), DropDirectory))
  }

  /** `sanitize_filename(filename)`: `nil.strip` is skipped by the `&&`, but the
      `gsub!` that follows is then called on nil. */
  function SanitizeFilename(filename: Option<string>): (r: Result<Option<string>>)
    ensures filename.None? <==> r.Err?
    ensures r.Err? ==> r.error == NilReceiver("gsub!")
    ensures r.Ok? ==> r.value.Some? && forall k :: 0 <= k < |r.value.value| ==> IsSafe(r.value.value[k])
  {
    match filename
    case None => Err(NilReceiver("gsub!"))
    case Some(name) => Ok(Some(Sanitize(name)))
  }

  /** `filename=(new_name)`: a nil name is stored as nil, any other sanitised. */
  function AssignFilename(newName: Option<string>): (r: Option<string>)
    ensures newName.None? <==> r.None?
    ensures r.Some? ==> SanitizeFilename(newName) == Ok(r)
  {
    if newName.None? then None else Some(Sanitize(newName.value))
  }

  /** After the directory step no character is lost: the result has the
      length of the stripped, directory-free name and none of its characters
      is a separator, a space or a newline. */
  lemma SanitizeShape(name: string)
    ensures |Sanitize(name)| == |MapLines(Strip(name), DropDirectory)|
    ensures forall k :: 0 <= k < |Sanitize(name)| ==>
      !IsSeparator(Sanitize(name)[k]) && !IsSpace(Sanitize(name)[k]) && Sanitize(name)[k] != '\0'
  {
    var r := Sanitize(name);
    forall k | 0 <= k < |r|
      ensures !IsSeparator(r[k]) && !IsSpace(r[k]) && r[k] != '\0'
    {
      assert IsSafe(r[k]);
    }
  }

  /** A name of safe characters only is left as it is. */
  lemma SafeFixed(t: string)
    requires forall k :: 0 <= k < |t| ==> IsSafe(t[k])
    ensures Sanitize(t) == t
  {
    SafeStripped(t);
    SafeOneLine(t);
    SafeKept(t);
    calc {
      Sanitize(t);
      ReplaceUnsafe(MapLines(Strip(t), DropDirectory));
      { assert Strip(t) == t; }
      ReplaceUnsafe(MapLines(t, DropDirectory));
      { assert MapLines(t, DropDirectory) == t; }
      ReplaceUnsafe(t);
      t;
    }
  }

  /** Safe characters are not replaced. */
  lemma SafeKept(t: string)
    requires forall k :: 0 <= k < |t| ==> IsSafe(t[k])
    ensures ReplaceUnsafe(t) == t
  {
    var r := ReplaceUnsafe(t);
    assert |r| == |t|;
    forall k | 0 <= k < |t|
      ensures r[k] == t[k]
    {
      assert IsSafe(t[k]);
    }
  }

  /** Safe characters are neither spaces nor NULs, so stripping keeps them. */
  lemma SafeStripped(t: string)
    requires forall k :: 0 <= k < |t| ==> IsSafe(t[k])
    ensures Strip(t) == t
  {
    if |t| > 0 {
      assert IsSafe(t[0]) && IsSafe(t[|t| - 1]);
      StripUnchanged(t);
    }
  }

  /** A safe name is one line without a directory part. */
  lemma SafeOneLine(t: string)
    requires forall k :: 0 <= k < |t| ==> IsSafe(t[k])
    ensures MapLines(t, DropDirectory) == t
  {
    assert '\n' !in t by {
      forall k | 0 <= k < |t| ensures t[k] != '\n' { assert IsSafe(t[k]); }
    }
    assert forall k :: 0 <= k < |t| ==> !IsSeparator(t[k]) by {
      forall k | 0 <= k < |t| ensures !IsSeparator(t[k]) { assert IsSafe(t[k]); }
    }
    assert DropDirectory(t) == t;
  }

  /** Sanitising is idempotent. */
  lemma SanitizeIdempotent(name: string)
    ensures Sanitize(Sanitize(name)) == Sanitize(name)
  {
    SafeFixed(Sanitize(name));
  }

  lemma StripUnchanged(s: string)
    requires s != "" && !IsSpace(s[0]) && !IsSpace(s[|s| - 1]) && s[|s| - 1] != '\0'
    ensures Strip(s) == s
  {
    assert TrimLeft(s) == s;
  }

  lemma AfterLastSeparatorAt(s: string, j: nat)
    requires j < |s| && IsSeparator(s[j])
    requires forall k :: j < k < |s| ==> !IsSeparator(s[k])
    ensures AfterLastSeparator(s) == j + 1
  {
  }

  lemma PathParts(dir: string, sep: char, file: string)
    requires IsSeparator(sep)
    requires '\n' !in dir && '\n' !in file
    requires forall k :: 0 <= k < |file| ==> !IsSeparator(file[k])
    requires file != "" && !IsSpace(file[|file| - 1]) && file[|file| - 1] != '\0'
    requires dir == "" || !IsSpace(dir[0])
    ensures var s := dir + [sep] + file;
      Strip(s) == s && '\n' !in s && DropDirectory(s) == file
  {
    var s := dir + [sep] + file;
    assert !IsSpace(s[0]) by {
      if dir == "" { assert s[0] == sep; } else { assert s[0] == dir[0]; }
    }
    assert s[|s| - 1] == file[|file| - 1];
    StripUnchanged(s);
    assert s[..|dir|] == dir && s[|dir| + 1..] == file;
    assert '\n' !in s by {
      assert s == s[..|dir|] + [sep] + s[|dir| + 1..];
    }
    assert forall k :: |dir| < k < |s| ==> s[k] == s[|dir| + 1..][k - |dir| - 1];
    AfterLastSeparatorAt(s, |dir|);
  }

  /** A one-line path keeps only what follows its last separator, `/` or `\\`
      alike, with the unsafe characters of that name replaced. */
  lemma FileNameOfPath(dir: string, sep: char, file: string)
    requires IsSeparator(sep)
    requires '\n' !in dir && '\n' !in file
    requires forall k :: 0 <= k < |file| ==> !IsSeparator(file[k])
    requires file != "" && !IsSpace(file[|file| - 1]) && file[|file| - 1] != '\0'
    requires dir == "" || !IsSpace(dir[0])
    ensures Sanitize(dir + [sep] + file) == ReplaceUnsafe(file)
  {
    PathParts(dir, sep, file);
  }

  // ---------------------------------------------------------------------------
  // has_attachment options
  // ---------------------------------------------------------------------------

  /** A `:thumbs` option as given: a Hash (thumbnail name to geometry) or some
      other object. */
  datatype Thumbs = ThumbsHash(entries: map<string, string>) | ThumbsOther(className: string)

  /** The options given to `has_attachment` (absent ones are nil). */
  datatype Options = Options(
    minSize: Option<int>,
    maxSize: Option<int>,
    size: Option<(int, int)>,
    thumbs: Option<Thumbs>,
    thumbnailClass: Option<string>,
    s3Access: Option<string>,
    contentType: Option<seq<Entry>>)

  /** The options after defaulting. */
  datatype Settings = Settings(
    minSize: int,
    maxSize: int,
    size: (int, int),
    thumbs: map<string, string>,
    thumbnailClass: string,
    s3Access: string,
    contentType: Option<seq<Entry>>)

  const Megabyte: int := 1048576

  function OrElse<T>(o: Option<T>, fallback: T): T
  {
    if o.Some? then o.value else fallback
  }

  /** `has_attachment(options)`: fills in the defaults, expands `:image` in the
      content types and insists that `:thumbs` is a Hash. */
  function HasAttachment(o: Options, className: string): (r: Result<Settings>)
    ensures r.Err? <==> o.thumbs.Some? && o.thumbs.value.ThumbsOther?
    ensures r.Err? ==> r.error.BadOption?
    ensures r.Ok? ==>
      r.value.minSize == OrElse(o.minSize, 1) &&
      r.value.maxSize == OrElse(o.maxSize, Megabyte) &&
      r.value.size == OrElse(o.size, (r.value.minSize, r.value.maxSize)) &&
      r.value.thumbnailClass == OrElse(o.thumbnailClass, className) &&
      r.value.s3Access == OrElse(o.s3Access, "public_read") &&
      (o.thumbs.None? ==> r.value.thumbs == map[]) &&
      (o.thumbs.Some? ==> r.value.thumbs == o.thumbs.value.entries) &&
      (o.contentType.None? <==> r.value.contentType.None?) &&
      (o.contentType.Some? ==> r.value.contentType == Some(Expand(o.contentType.value)))
  {
    var minSize := OrElse(o.minSize, 1);
    var maxSize := OrElse(o.maxSize, Megabyte);
    var contentType := if o.contentType.Some? then Some(Expand(o.contentType.value)) else None;
    var settle := (thumbs: map<string, string>) =>
      Settings(minSize, maxSize, OrElse(o.size, (minSize, maxSize)), thumbs,
               OrElse(o.thumbnailClass, className), OrElse(o.s3Access, "public_read"), contentType);
    match o.thumbs
    case None => Ok(settle(map[]))
    case Some(ThumbsHash(entries)) => Ok(settle(entries))
    case Some(ThumbsOther(_)) => Err(BadOption(":thumbs option should be a hash"))
  }

  /** With no options at all, sizes from 1 byte to 1 MB are allowed, there is
      no whitelist, and every content type is accepted. */
  lemma Defaults(className: string, contentType: Option<string>)
    ensures var r := HasAttachment(Options(None, None, None, None, None, None, None), className);
      r.Ok? && r.value.size == (1, Megabyte) && r.value.thumbs == map[] &&
      !Rejects(r.value.contentType, contentType)
  {
  }

  /** `valid_content_type?` under the declared options: with no
      `:content_type` option every type passes; otherwise a type is rejected
      exactly when it is nil, or the option neither names it nor asks for
      `:image` with it an image type. */
  lemma DeclaredWhitelist(o: Options, className: string, contentType: Option<string>)
    requires HasAttachment(o, className).Ok?
    ensures var ct := o.contentType;
      Rejects(HasAttachment(o, className).value.contentType, contentType) <==>
        ct.Some? &&
        (contentType.None? ||
         (Name(contentType.value) !in ct.value && !(ImageSymbol in ct.value && contentType.value in ImageTypes)))
  {
    if o.contentType.Some? {
      ConfiguredWhitelist(o.contentType.value, contentType);
    }
  }

  /** A class declared with `:content_type => :image` accepts exactly the image
      types. */
  lemma ImageOnly(className: string, contentType: Option<string>)
    ensures var r := HasAttachment(Options(None, None, None, None, None, None, Some([ImageSymbol])), className);
      r.Ok? && (Rejects(r.value.contentType, contentType) <==> !IsImage(contentType))
  {
    ImageWhitelist(contentType);
  }
}
