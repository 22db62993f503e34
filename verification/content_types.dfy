/** The content-type whitelist of an attachment class: the `:content_type`
    option, where the symbol `:image` stands for the standard image types,
    and the validation that checks a record's type against it. Both the
    current revision and attachment_fu use the same list and rule. */
module ContentTypes {
  import opened Outcomes

  /** An entry of the `:content_type` option: a type string or a symbol. */
  datatype Entry = Name(name: string) | Symbol(sym: string)

  /** The standard image content types. */
  const ImageTypes: seq<string> :=
    ["image/jpeg", "image/pjpeg", "image/gif", "image/png", "image/x-png", "image/jpg", "image/bmp"]

  const ImageSymbol := Symbol("image")

  function Names(types: seq<string>): (r: seq<Entry>)
    ensures |r| == |types| && forall i :: 0 <= i < |types| ==> r[i] == Name(types[i])
  {
    if |types| == 0 then [] else [Name(types[0])] + Names(types[1..])
  }

  /** `[option].flatten.collect! { |t| t == :image ? image_types : t }.flatten`. */
  function Expand(entries: seq<Entry>): seq<Entry>
  {
    if |entries| == 0 then []
    else (if entries[0] == ImageSymbol then Names(ImageTypes) else [entries[0]]) + Expand(entries[1..])
  }

  /** The expanded whitelist holds exactly the given entries other than
      `:image`, plus the image types when `:image` was given. */
  lemma {:induction false} ExpandMembers(entries: seq<Entry>, e: Entry)
    ensures e in Expand(entries) <==>
      (e in entries && e != ImageSymbol) || (ImageSymbol in entries && e.Name? && e.name in ImageTypes)
  {
    if |entries| > 0 {
      ExpandMembers(entries[1..], e);
      ImageNames(e);
      assert entries == [entries[0]] + entries[1..];
    }
  }

  lemma ImageNames(e: Entry)
    ensures e in Names(ImageTypes) <==> e.Name? && e.name in ImageTypes
  {
    if e.Name? && e.name in ImageTypes {
      var i :| 0 <= i < |ImageTypes| && ImageTypes[i] == e.name;
      assert Names(ImageTypes)[i] == e;
    }
  }

  /** `valid_content_type?`: whether the record's type draws an inclusion
      error: there is a whitelist and the type (a string, or nil) is not in it. */
  function Rejects(whitelist: Option<seq<Entry>>, contentType: Option<string>): (r: bool)
  {
    whitelist.Some? && !(contentType.Some? && Name(contentType.value) in whitelist.value)
  }

  /** A configured whitelist rejects a type exactly when the option neither
      named it nor asked for `:image` with it an image type; a nil type is
      always rejected, and no whitelist accepts everything. */
  lemma ConfiguredWhitelist(entries: seq<Entry>, contentType: Option<string>)
    ensures Rejects(None, contentType) == false
    ensures contentType.None? ==> Rejects(Some(Expand(entries)), contentType)
    ensures contentType.Some? ==>
      (Rejects(Some(Expand(entries)), contentType) <==>
        Name(contentType.value) !in entries &&
        !(ImageSymbol in entries && contentType.value in ImageTypes))
  {
    if contentType.Some? {
      ExpandMembers(entries, Name(contentType.value));
    }
  }

  /** `image?(content_type)`. */
  function IsImage(contentType: Option<string>): bool
  {
    contentType.Some? && contentType.value in ImageTypes
  }

  /** The image types are exactly what an `:image` whitelist accepts. */
  lemma ImageWhitelist(contentType: Option<string>)
    ensures IsImage(contentType) <==> !Rejects(Some(Expand([ImageSymbol])), contentType)
  {
    if contentType.Some? {
      ExpandMembers([ImageSymbol], Name(contentType.value));
    }
  }
}
