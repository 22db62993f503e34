# Attachment sources, in Dafny

A model of the attachment "source" layer of the Attach Rails plugin (the
`Hapgood::Attach` revision that `init.rb` loads). It also covers two older
helpers that the plugin still carries: GroupSmarts' thumbnail naming and
presets, and attachment_fu's filename sanitising and option defaulting.

A *source* wraps the data and metadata of an attachment. `Base.load`,
`Base.reload` and `Base.store` dispatch on the input's class or the URI's
scheme to one of these:

- a Blob (a string in memory);
- a Memory table entry;
- a File or a LocalAsset (a file under the public root);
- an ActiveRecord row;
- an S3 object;
- an Http resource.

`Base.process` wraps a source in RMagick (resizing to a preset) or EXIFR
(adding EXIF metadata). The attachment model stores a source under a URI
built from the record's id, aspect and MIME type; it validates the source,
and discards it when the record is destroyed.

How Ruby is rendered:

- **One record per source.** Every source object is one `Source` record: its kind (one per subclass, carrying
  that subclass's state), its primer metadata hash, its error slot and its
  frozen flag.
- **Instance methods** (`uri`, `blob`, `mime_type`, `metadata`, ...) are
  functions in `Sources` that dispatch on the kind as method lookup would.
  Class methods and state transitions live in one module per backend.
- **Mutable stores are a `World` value.** These are the Memory table, the file system, the S3 buckets and
  the blob table. `store` and `destroy` return the updated `World`.
- **Collaborators are fields of an `Env`.** ImageMagick, EXIFR, MD5, Base64, the network, time parsing and
  Rails' `image_path` are function-valued fields of an `Env` and carry no
  interpretation.
- **Exceptions are values.** An exception is an `Err` of `Outcomes.Error`. A `nil` is an `Option`
  or the `Nil` metadata value. Ruby's `split`, `strip`, `basename`,
  `extname`, `expand_path` and per-line `^`/`$` regexps are written out in
  `Text`.

Where the code and its tests disagree, the model follows the code:

- `test/test/source_memory_test.rb:35` expects a memory URI to reload, but `reload` has
  no memory branch (see Findings).
- `test/test/source_db_test.rb:56-61` expects a missing row not to raise, but
  `ActiveRecord.reload` lets `find`'s RecordNotFound through.
- A missing S3 object is not turned into MissingSource by `S3#destroy`, because `s3obj` has already
  turned it into nil (see Findings).

The main modules model the code as written. The `Findings` module sets each
defect next to a corrected definition that reuses them.

## Model

| member | source | states |
|---|---|---|
| HttpFetch.Download | lib/hapgood/attach/sources/http.rb:29-41 | A download fails only for too many redirections, a refused GET or a connection failure. |
| HttpFetch.DownloadFollowsChain | lib/hapgood/attach/sources/http.rb:29-35 | A GET whose chain of at most `count` redirections ends in a success returns that response. |
| HttpFetch.DownloadIsChain | lib/hapgood/attach/sources/http.rb:29-35 | Every successful GET ends a chain of at most `count` redirections that starts at the requested URI. |
| HttpFetch.DownloadRedirectLimit | lib/hapgood/attach/sources/http.rb:33-35 | A chain of `count + 1` redirections fails with too many redirections, for HEAD and GET alike. |
| HttpFetch.HeadFallsBackToGet | lib/hapgood/attach/sources/http.rb:36-38 | A HEAD refused at the end of its redirections becomes a fresh GET of the refusing URI with the default budget of 5. |
| HttpFetch.Fetch | lib/hapgood/attach/sources/http.rb:101-107 | The cached response is returned for the same verb. Another verb downloads and caches; any failure becomes MissingSource, and the new verb stays paired with the old response. |
| HttpFetch.FetchTwice | lib/hapgood/attach/sources/http.rb:101-104 | Asking twice for one verb downloads at most once; after a failure the second call returns the stale response. |
| ExifTime.DateSeparators | lib/hapgood/attach/sources/rmagick.rb:124 | A reported pair of positions is the two separators of a leading `digits[:/]digits[:/]digits` date. |
| ExifTime.DateSeparatorsComplete | lib/hapgood/attach/sources/rmagick.rb:124 | Every leading date is found, with exactly its separators. |
| ExifTime.NormalizeDate | lib/hapgood/attach/sources/rmagick.rb:124 | The line keeps its length; the two date separators become `-` and every other character stays. |
| ExifTime.NormalizeDateChanges | lib/hapgood/attach/sources/rmagick.rb:124 | Only colons and slashes change, and only into dashes. |
| ExifTime.NormalizeTimestampIdempotent | lib/hapgood/attach/sources/rmagick.rb:124 | Rewriting a multi-line timestamp twice changes nothing further. |
| Environment.S3Location | lib/hapgood/attach/sources/s3.rb:104-105 | The bucket is the second `/`-segment of the path and the key the last; there is no location when either is missing. |
| Environment.S3Find | lib/hapgood/attach/sources/s3.rb:102-110 | An object is found exactly when its bucket and key are in the store; a missing object is nil, not an exception. |
| Environment.ExpandUserCanonical | lib/hapgood/attach/sources/file.rb:14 | An expanded path has no empty, `.` or `..` component and resolves to itself; a path not starting with `~` expands as it resolves. |
| Text.ExpandPathClean | lib/hapgood/attach/sources/file.rb:14 | `expand_path` leaves no empty, `.` or `..` component, and expanding again changes nothing. |
| Text.ExpandRelative | lib/hapgood/attach/sources/file.rb:14 | A relative path expands as the working directory joined to it. |
| Text.ExpandFoldsParent | lib/hapgood/attach/sources/file.rb:58 | A `c/..` inside a rooted path folds away. |
| Text.ExpandFoldsDot | lib/hapgood/attach/sources/file.rb:58 | A `.` component inside a rooted path folds away. |
| Uris.ParseRelativePath | lib/hapgood/attach/sources/base.rb:62 | Parsing a relative URI keeps the path and drops any query or fragment after it. |
| Sources.UriOf | lib/hapgood/attach/sources/base.rb:119-122 | Base and Blob have no URI; the stores and Http answer the URI they were built with; ActiveRecord answers `db:/<id>` and raises once destroyed; EXIFR delegates. |
| Sources.PersistentOf | lib/hapgood/attach/sources/base.rb:101-104 | Base and Blob raise "Not yet implemented"; every storage backend and Http answer true; RMagick answers its own flag; EXIFR delegates. |
| Sources.ReadonlyOf | lib/hapgood/attach/sources/base.rb:106-109 | Base and Blob raise; Memory, ActiveRecord, S3 and RMagick are writable; Http is read-only; File is read-only when frozen and otherwise fails on `writeable?`; EXIFR delegates. |
| Sources.SizeOf | lib/hapgood/attach/sources/base.rb:134-137 | Every source except Http and RMagick reports Base's size. |
| Sources.BaseSize | lib/hapgood/attach/sources/base.rb:134-137 | The size is the byte length of the blob; it fails exactly when the blob fails or is nil. |
| Sources.BaseDigest | lib/hapgood/attach/sources/base.rb:139-142 | The digest is the MD5 of the blob; it fails exactly when the blob fails or is nil. |
| Sources.DigestOf | lib/hapgood/attach/sources/base.rb:139-142 | Every source except Http reports Base's digest. |
| Sources.BaseMetadata | lib/hapgood/attach/sources/base.rb:144-153 | The metadata is the primer hash with `mime_type`, `filename`, `digest` and `size` written in when truthy. It fails if any of them fails, or the primer was cleared. |
| Sources.MetadataOf | lib/hapgood/attach/sources/base.rb:144-153 | Sources other than the RMagick and EXIFR wrappers report Base's metadata; no source has metadata when Base's fails. |
| Sources.ExifData | lib/hapgood/attach/sources/rmagick.rb:118-133 | The EXIF hash holds at most `:time`, and only when the image has EXIF entries; the value is a parsed time. |
| Sources.ExifrImage | lib/hapgood/attach/sources/exifr.rb:58-63 | EXIFR reads a source only when its MIME symbol is `:jpg` or `:tif`. |
| Sources.FilePublicUri | lib/hapgood/attach/sources/file.rb:57-62 | Both the path and the public root are resolved with `.` and `..` folded. When both exist, the path is published as `/` plus its path relative to the root, or as nil when that relative path contains `..`. A missing path, and then a missing root, raises ENOENT naming it. |
| Sources.PublicUriOf | lib/hapgood/attach/sources/s3.rb:58-60 | Http publishes its URI; S3 publishes the object's URL and raises when the object is missing; File and LocalAsset use the file rule; the other kinds have no `public_uri`. |
| Sources.BaseValid | lib/hapgood/attach/sources/base.rb:97-99 | A source is valid exactly when it has no error, and asking changes nothing. |
| Sources.BaseDestroy | lib/hapgood/attach/sources/base.rb:111-116 | Destroying clears the data and the primer metadata and freezes; on a frozen source it raises and changes nothing. |
| BlobSource.Accessors | lib/hapgood/attach/sources/blob.rb:10-12 | The blob is exactly the constructor's data, its size the data's length and its digest the MD5. There is no URI, and both flags raise. |
| BlobSource.MetadataShape | lib/hapgood/attach/sources/base.rb:130-153 | The metadata has a filename (the primer one, else "attachment"), the digest and the size. It has `mime_type` only when the primer has it, and keeps every other primer entry. |
| MemorySource.Store | lib/hapgood/attach/sources/memory.rb:14-19 | An existing key raises and leaves the table alone. Otherwise the blob is written under the key, and the result has the target URI and the source's metadata. |
| MemorySource.StoreThenBlob | lib/hapgood/attach/sources/memory.rb:59-61 | The stored source reads back the blob that was stored. |
| MemorySource.Accessors | lib/hapgood/attach/sources/memory.rb:37-51 | A reloaded source has its URI, is persistent and writable, and is named by the primer filename or else the key. Its blob is the table entry; reload never checks for it. |
| MemorySource.Valid | lib/hapgood/attach/sources/memory.rb:31-33 | Valid exactly when the key is present. A missing key stores `false` as the error, and raises on a frozen source. |
| MemorySource.Destroy | lib/hapgood/attach/sources/memory.rb:76-79 | Only the source's key leaves the table, a missing key raises nothing, and the source is frozen. |
| MemorySource.DestroyThenValid | lib/hapgood/attach/sources/memory.rb:76-79 | Asking a destroyed Memory source whether it is valid raises. |
| MemorySource.DestroyIdempotent | lib/hapgood/attach/sources/memory.rb:76-79 | A second destroy changes nothing further. |
| MemorySource.StoreThenDestroy | lib/hapgood/attach/sources/memory.rb:14-19 | Destroying the stored source restores the table as it was before the store. |
| FileSource.Load | lib/hapgood/attach/sources/file.rb:13-16 | The URI is `file://localhost` plus the expanded path (`~` taken from the home directory), and the primer metadata is the given hash. |
| FileSource.LoadCanonical | lib/hapgood/attach/sources/file.rb:14 | The loaded path has no empty, `.` or `..` component, and names the same file as the path it was loaded from. |
| FileSource.ParentFolded | lib/hapgood/attach/sources/file.rb:38-99 | A path through `c/..` and the same path without it are equally valid, destroy the same file and have the same public URI. |
| FileSource.Store | lib/hapgood/attach/sources/file.rb:19-26 | The parent directories are always created. An existing target raises, and nothing is copied. A copied file is new, holds the temp file contents with mode 0644, and is returned with the source's metadata. |
| FileSource.StoreBlob | lib/hapgood/attach/sources/file.rb:23-24 | Storing a Blob writes its bytes with mode 0644, and the stored file's blob and size are the Blob's. |
| FileSource.Valid | lib/hapgood/attach/sources/file.rb:38-43 | Valid exactly when the path, with `.` and `..` folded, exists. Otherwise the answer is false with the ENOENT message recorded, and it raises only on a frozen source. |
| FileSource.Destroy | lib/hapgood/attach/sources/file.rb:94-99 | Only the file at the folded path leaves the file system, a missing file raises nothing, and the source is frozen. |
| FileSource.DestroyIdempotent | lib/hapgood/attach/sources/file.rb:94-99 | A second destroy changes nothing further. |
| FileSource.NameFallbacks | lib/hapgood/attach/sources/file.rb:66-73 | The filename and MIME type fall back to the base name and the extension lookup only when the primer lacks them; the source is persistent. |
| FileSource.PublicUriBelow | lib/hapgood/attach/sources/file.rb:57-59 | With the public root existing, a file whose folded path lies below the folded root is published at `/` plus its path below that root. |
| FileSource.PublicUriOutside | lib/hapgood/attach/sources/file.rb:57-59 | With the public root existing, a file whose folded path leaves the folded root has no public URI. |
| LocalAssetSource.Accessors | lib/hapgood/attach/sources/local_asset.rb:6-23 | The URI is the one given; the data is read from the public directory joined with the URI path; the asset is persistent. |
| LocalAssetSource.Valid | lib/hapgood/attach/sources/local_asset.rb:21-23 | Valid exactly when the asset exists; a missing asset's error escapes `valid?` and records nothing. |
| LocalAssetSource.Destroy | lib/hapgood/attach/sources/local_asset.rb:11-13 | Destroying raises nothing and changes neither the source nor the stores. |
| LocalAssetSource.DestroyHarmless | lib/hapgood/attach/sources/local_asset.rb:11-13 | Destroying any number of times leaves the asset readable, the source unfrozen and its validity unchanged. |
| ActiveRecordSource.Store | lib/hapgood/attach/sources/active_record.rb:7-10 | A fresh row with the next id holds the source's blob, and the result wraps that row with the source's metadata. A nil blob or a failing one writes nothing. |
| ActiveRecordSource.StoreIgnoresUri | lib/hapgood/attach/sources/active_record.rb:7-10 | The target URI has no influence on storing. |
| ActiveRecordSource.StoreFreshRow | lib/hapgood/attach/sources/active_record.rb:8 | Row ids stay below the next id, and a stored row's id was free. |
| ActiveRecordSource.Reload | lib/hapgood/attach/sources/active_record.rb:13-17 | The reloaded row is the one whose id is the last `/`-segment of the path; a missing row raises RecordNotFound. |
| ActiveRecordSource.StoreThenReload | lib/hapgood/attach/sources/active_record.rb:38-40 | A stored source's URI is `db:/<id>`, and reloading it gives the blob that was stored. |
| ActiveRecordSource.Accessors | lib/hapgood/attach/sources/active_record.rb:27-40 | A row's source has URI `db:/<id>`, is persistent and is writable. |
| ActiveRecordSource.Destroy | lib/hapgood/attach/sources/active_record.rb:21-25 | The row is deleted, then the source is cleared and frozen; without a row, destroying raises. |
| ActiveRecordSource.DestroyThenReload | lib/hapgood/attach/sources/active_record.rb:21-25 | A destroyed source's URI no longer reloads. |
| S3Source.Store | lib/hapgood/attach/sources/s3.rb:13-19 | An existing object raises and writes nothing. Otherwise the blob is stored under the bucket and key, and the result has the target URI and the source's metadata. |
| S3Source.StoreThenBlob | lib/hapgood/attach/sources/s3.rb:73-76 | A stored source reads back the input blob and has the target URI. |
| S3Source.LocationOfBucketPath | lib/hapgood/attach/sources/s3.rb:14-15 | For `s3:/<bucket>/<key>`, the bucket and key are exactly those two names. |
| S3Source.Accessors | lib/hapgood/attach/sources/s3.rb:46-66 | The source is persistent and writable, has its URI, and is named by the primer filename or else the key. |
| S3Source.Valid | lib/hapgood/attach/sources/s3.rb:40-44 | Valid exactly when the object is found. Otherwise the answer is false with "Missing S3 object" recorded, and it raises on a frozen source. |
| S3Source.Destroy | lib/hapgood/attach/sources/s3.rb:91-99 | An existing object is deleted before the base destroy. A missing one raises NoMethodError on nil, yet the source is still cleared and frozen. |
| S3Source.DestroyFreezes | lib/hapgood/attach/sources/s3.rb:96-97 | Whether or not the object existed, the source ends cleared and frozen, and the object is gone. |
| HttpSource.Valid | lib/hapgood/attach/sources/http.rb:48-53 | An unfrozen source never raises; from an empty cache it is valid exactly when the HEAD download succeeds, and otherwise it records the download's message. |
| HttpSource.Accessors | lib/hapgood/attach/sources/http.rb:58-76 | The source is persistent and read-only, publishes its own URI, and is named by the last path segment. |
| HttpSource.DigestRule | lib/hapgood/attach/sources/http.rb:89-91 | The digest is the decoded Content-MD5 of the HEAD response when present, otherwise the MD5 of the GET body. |
| HttpSource.SizeAndType | lib/hapgood/attach/sources/http.rb:79-86 | The size is the HEAD response's Content-Length (nil when absent) and the MIME type its Content-Type. |
| RmagickSource.New | lib/hapgood/attach/sources/rmagick.rb:23-29 | A wrapper copies the wrapped source's URI, blob and persistence. It is writable and unprocessed, and it fails exactly when one of those three fails. |
| RmagickSource.Process | lib/hapgood/attach/sources/rmagick.rb:32-39 | A name that is not a preset raises before anything changes. A preset gives a source with no URI, not persistent, with the blob and temp file cleared and the preset as aspect. |
| RmagickSource.ProcessedBlob | lib/hapgood/attach/sources/rmagick.rb:86-88 | After processing, the blob is the encoding of the resized image. |
| RmagickSource.ResizedNameOf | lib/hapgood/attach/sources/rmagick.rb:53-59 | `stem.ext` becomes `stem[_aspect].<symbol>`. |
| RmagickSource.ProcessedFilename | lib/hapgood/attach/sources/rmagick.rb:53-59 | A processed wrapper of `stem.ext` is named `stem_<preset>.<symbol of the resized image>`. |
| RmagickSource.UnprocessedFilename | lib/hapgood/attach/sources/rmagick.rb:53-59 | An unprocessed wrapper of `stem.ext` is named `stem.<symbol>`. |
| RmagickSource.MetadataDefined | lib/hapgood/attach/sources/rmagick.rb:77-82 | The metadata fails only when Base's metadata or the image does; EXIF trouble is swallowed. |
| RmagickSource.MetadataShape | lib/hapgood/attach/sources/rmagick.rb:77-82 | Height and width come from the image, overriding the primer. Every other Base entry stays, except a `:time` from the EXIF data. |
| ExifrSource.Delegation | lib/hapgood/attach/sources/exifr.rb:15-55 | `process` returns the wrapper, whose flags, MIME type, filename, URI and blob are all the wrapped source's. |
| ExifrSource.UnsupportedMimeRaises | lib/hapgood/attach/sources/exifr.rb:58-63 | A MIME symbol other than `:jpg` or `:tif` makes the metadata raise. |
| ExifrSource.AugmentFacts | lib/hapgood/attach/sources/exifr.rb:42-49 | EXIF entries never overwrite existing keys. Height and width are set only when reported. `:time` comes from `:date_time_original`, which is removed; only when that is missing or nil does it come from `:date_time`, which is then removed too. |
| ExifrSource.MetadataIsAugmented | lib/hapgood/attach/sources/exifr.rb:42-49 | The wrapper's metadata is Base's metadata augmented with the image's EXIF data. |
| Lifecycle.Valid | lib/hapgood/attach/sources/base.rb:97-99 | Kinds that do not override `valid?` use Base's rule; a valid answer never changes the error. |
| Lifecycle.Destroy | lib/hapgood/attach/sources/base.rb:111-116 | Kinds that do not override `destroy` use Base's; a local asset's destroy does nothing. |
| Lifecycle.DestroyFreezes | lib/hapgood/attach/sources/base.rb:111-116 | Every destroy that completes freezes the source, except a local asset's, which leaves it as it was. |
| Lifecycle.DestroyOnlyRemoves | lib/hapgood/attach/sources/base.rb:111-116 | Destroying only removes entries from the stores and never adds or alters any. |
| Dispatch.Load | lib/hapgood/attach/sources/base.rb:25-44 | URIs load only for http(s), as an Http source, and with no scheme, as a LocalAsset, and raise otherwise. A file, a String and nil become File, Blob and a bare Base; any other class raises. |
| Dispatch.Reload | lib/hapgood/attach/sources/base.rb:46-56 | http(s), db, file, s3 and no scheme give an Http, ActiveRecord, File, S3 and LocalAsset source with the given metadata; every other scheme raises. |
| Dispatch.Store | lib/hapgood/attach/sources/base.rb:77-85 | file and no scheme store to File, s3 to S3 and db to ActiveRecord; every other scheme raises and changes nothing. |
| Dispatch.LoadAgreesWithReload | lib/hapgood/attach/sources/base.rb:29-34 | For http(s) and scheme-less URIs, loading and reloading build the same source. |
| Dispatch.StoreThenReload | lib/hapgood/attach/sources/base.rb:77-85 | A source stored to file, s3 or db reloads from its own URI, with any metadata, into a source that reads the same data. |
| Dispatch.IconNameShape | lib/hapgood/attach/sources/base.rb:87-90 | The icon path is `mime_type_icons/` plus the MIME string with each `/` made `_`, plus `.png`. |
| Dispatch.Process | lib/hapgood/attach/sources/base.rb:59-74 | `icon` succeeds exactly when the MIME type can be read, and then gives a LocalAsset at the icon asset's parsed relative URI; otherwise it raises the MIME type's error. A preset succeeds exactly when wrapping the source in RMagick and processing it succeed, and gives that processed wrapper, and `info` wraps only `:jpg`/`:tiff` sources and returns any other source itself. Other names raise. |
| Dispatch.IconAssetId | lib/hapgood/attach/sources/base.rb:62 | An icon path with an asset-id query is an asset at the path alone; the query does not enter it. |
| Dispatch.IdentityRaises | lib/hapgood/attach/sources/base.rb:72 | The default transform `identity` is not one `process` knows, so it raises. |
| ContentTypes.ExpandMembers | lib/hapgood/attach.rb:41 | The expanded whitelist holds exactly the given entries other than `:image`, plus the seven image types when `:image` was given. |
| ContentTypes.ConfiguredWhitelist | lib/hapgood/attach.rb:251-254 | No whitelist accepts everything. A nil type is rejected. Any other type is rejected exactly when the option neither names it nor asks for `:image` with it an image type. |
| ContentTypes.ImageWhitelist | lib/hapgood/attach.rb:102-104 | `image?` holds exactly for the types an `:image` whitelist accepts. |
| Attach.Extension | lib/hapgood/attach.rb:108 | The extension is nil exactly when the value has no `to_sym`, and it never contains `/`. |
| Attach.StorageUri | lib/hapgood/attach.rb:107-110 | The default storage URI is a `file://localhost` URI. |
| Attach.StorageUriShape | lib/hapgood/attach.rb:42 | The stored name `<id>[_<aspect>].<ext>` is the last segment of the URI path; the URI is local and storing to it goes to File. |
| Attach.UnregisteredTypeHidden | lib/hapgood/attach.rb:107-110 | An unregistered MIME string never appears in the storage URI; the name ends in a bare `.`. |
| Attach.LocalMeansStored | lib/hapgood/attach.rb:134-136 | `local?` fails without a URI. Local file and s3 URIs always reload, and a non-local scheme can be neither stored to nor (unless http) reloaded. |
| Attach.ProcessingKnown | lib/hapgood/attach.rb:285-287 | Processing is chosen exactly for images: `max` when resizing, `info` otherwise, both transforms `process` knows. |
| Attach.ImageSize | lib/hapgood/attach.rb:139-141 | A size string exists exactly when the metadata has both a width and a height. |
| Attach.ImageSizeRoundTrip | lib/hapgood/attach.rb:139-141 | For integer dimensions the size splits at `x` into two numerals that read back as the width and the height. |
| Attach.PreviousLive | lib/hapgood/attach.rb:188 | The guard fires only for a cached source that is persistent and writable and belongs to this record. |
| Attach.AssignSource | lib/hapgood/attach.rb:185-194 | Non-sources and invalid sources are refused. An accepted source was valid, no live previous source remains, and its metadata splits into record attributes and leftover metadata with none lost. |
| Attach.StaleSourceBlocks | lib/hapgood/attach.rb:188 | A destroyed Memory source that is still cached refuses every new source. |
| Attach.AssignAfterDestroy | lib/hapgood/attach.rb:312-318 | After `destroy_source`, a valid source with readable metadata is accepted. |
| Attach.Reported | lib/hapgood/attach.rb:261 | A valid source reports nothing; an invalid one reports its error only when that is a message; a raising `valid?` propagates. |
| Attach.ValidSourceMessage | lib/hapgood/attach.rb:257-265 | A missing source reports "Source not available"; a valid one nothing; any reported message is the invalid source's recorded error. |
| Attach.MissingFileMessage | lib/hapgood/attach.rb:257-265 | A vanished file is reported with the ENOENT message of its path. |
| Attach.MissingS3Message | lib/hapgood/attach.rb:257-265 | A missing S3 object is reported as "Missing S3 object". |
| Attach.DestroySource | lib/hapgood/attach.rb:312-318 | The cache is always cleared, MissingSource never escapes, and the stores are those the source's destroy leaves. |
| Attach.Swallow | lib/hapgood/attach.rb:314-317 | MissingSource is swallowed, any other exception is re-raised unchanged, and the cache is cleared. |
| Attach.DestroySourceQuiet | lib/hapgood/attach.rb:312-318 | Discarding a Memory, File or local asset source never raises. |
| GroupSmarts.PresetsAgree | lib/group_smarts/attach/sources/rmagick.rb:7-10 | The same four presets and sizes as the current revision, which only adds the shrink-only flag to the boxes. |
| GroupSmarts.LineExtension | lib/group_smarts/attach/sources/rmagick.rb:83 | The match is a final `.` followed by one or more word characters at the end of the line. |
| GroupSmarts.WithoutExtension | lib/group_smarts/attach/sources/rmagick.rb:83-85 | The line is its remainder followed by the removed extension. |
| GroupSmarts.AdjustedFilenameFor | lib/group_smarts/attach/sources/rmagick.rb:81 | A blank or nil aspect returns the filename unchanged. |
| GroupSmarts.AdjustedDotted | lib/group_smarts/attach/sources/rmagick.rb:80-87 | `stem.ext` with an aspect becomes `stem_<aspect>.ext`. |
| GroupSmarts.AdjustedPlain | lib/group_smarts/attach/sources/rmagick.rb:82-86 | A name without an extension becomes `<name>_<aspect>`. |
| GroupSmarts.Process | lib/group_smarts/attach/sources/rmagick.rb:19-29 | Only the four presets are accepted, anything else raises. A preset resizes within its geometry, sets the aspect and clears the URI and blob. |
| GroupSmarts.ProcessedName | lib/group_smarts/attach/sources/rmagick.rb:33-35 | An unprocessed wrapper keeps the name; a processed one is `stem_<preset>.ext`. |
| AttachmentFu.DropDirectory | lib/technoweenie/attachment_fu.rb:369 | What remains has no `/` or `\` and is a suffix of the line. |
| AttachmentFu.ReplaceUnsafe | lib/technoweenie/attachment_fu.rb:372 | Each character outside `[A-Za-z0-9_.-]` becomes `_`, the others stay, and the length is kept. |
| AttachmentFu.Sanitize | lib/technoweenie/attachment_fu.rb:365-374 | A sanitised name holds only safe characters. |
| AttachmentFu.SanitizeFilename | lib/technoweenie/attachment_fu.rb:365-374 | A nil name raises on `gsub!`; any other name is sanitised to safe characters. |
| AttachmentFu.AssignFilename | lib/technoweenie/attachment_fu.rb:214-216 | A nil name stays nil, and any other name is stored sanitised. |
| AttachmentFu.SanitizeShape | lib/technoweenie/attachment_fu.rb:366-372 | The result has the length of the stripped, directory-free name, with no separator, space or NUL. |
| AttachmentFu.SafeFixed | lib/technoweenie/attachment_fu.rb:372 | A name of safe characters is left as it is. |
| AttachmentFu.SanitizeIdempotent | lib/technoweenie/attachment_fu.rb:365-374 | Sanitising twice gives the same as sanitising once. |
| AttachmentFu.FileNameOfPath | lib/technoweenie/attachment_fu.rb:367-369 | A one-line path, with `/` or `\` alike, keeps only the name after its last separator, with unsafe characters replaced. |
| AttachmentFu.HasAttachment | lib/technoweenie/attachment_fu.rb:43-55 | Sizes default to 1..1 MB, `thumbs` to `{}`, the thumbnail class to the class and S3 access to public_read. The whitelist is absent exactly when the option is, and otherwise is the option with `:image` expanded. A `thumbs` option that is not a Hash raises ArgumentError. |
| AttachmentFu.Defaults | lib/technoweenie/attachment_fu.rb:45-51 | With no options, sizes are 1 byte to 1 MB and every content type is accepted. |
| AttachmentFu.DeclaredWhitelist | lib/technoweenie/attachment_fu.rb:51 | For any declared options, a type is rejected exactly when there is a `:content_type` option and the type is nil, or neither named in it nor an image type with `:image` in it. |
| AttachmentFu.ImageOnly | lib/technoweenie/attachment_fu.rb:136-138 | A class declared `:content_type => :image` rejects a type exactly when `image?` does not hold. |
| Findings.MemoryNotDispatched | lib/hapgood/attach/sources/base.rb:46-56 | As written, a `memory` URI can be neither reloaded nor stored to. |
| Findings.ReloadWithMemory | lib/hapgood/attach/sources/memory.rb:22-24 | With a memory branch, a memory URI reloads with its URI and metadata, and every other URI reloads as before. |
| Findings.StoreWithMemory | lib/hapgood/attach/sources/memory.rb:14-19 | With a memory branch, a memory URI stores through Memory, and every other URI stores as before. |
| Findings.MemoryRoundTrip | lib/hapgood/attach/sources/base.rb:77-85 | Corrected, a source stored to memory reloads from its URI with the data it was stored with. |
| Findings.TiffRoutedButRefused | lib/hapgood/attach/sources/base.rb:69 | As written, a `:tiff` source is wrapped for EXIFR, and the wrapper's metadata then raises. |
| Findings.TifNotRouted | lib/hapgood/attach/sources/base.rb:68-70 | As written, a `:tif` source (the one EXIFR reads) is returned unwrapped. |
| Findings.ProcessInfo | lib/hapgood/attach/sources/exifr.rb:59-60 | Routing on EXIFR's own symbols wraps exactly the `:jpg` and `:tif` sources and returns the others themselves. |
| Findings.RoutedSourcesAreReadable | lib/hapgood/attach/sources/exifr.rb:58-63 | Corrected, every `:jpg`/`:tif` source is wrapped, and reading its EXIF data fails exactly when its data cannot be read. |
| Findings.MissingKeyUnreported | lib/hapgood/attach/sources/memory.rb:32 | As written, an invalid Memory source yields no validation message. |
| Findings.MemoryValid | lib/hapgood/attach/sources/memory.rb:31-33 | With the message assigned, `valid?` is still true exactly when the key is present. |
| Findings.MissingKeyReported | lib/hapgood/attach/sources/memory.rb:32 | Corrected, an invalid Memory source is reported with "No such key in store <key>". |
| Findings.MissingObjectEscapes | lib/hapgood/attach/sources/s3.rb:91-99 | As written, destroying a source whose S3 object is gone raises NoMethodError out of `destroy_source`. |
| Findings.S3Destroy | lib/hapgood/attach/sources/s3.rb:91-99 | With MissingSource raised for a missing object, an existing object is handled as before, and the source is still cleared and frozen. |
| Findings.DiscardS3Quietly | lib/hapgood/attach.rb:312-318 | Corrected, discarding an unfrozen S3 source never raises and leaves it frozen with its object gone. |

## Left out

- I/O: `io`, `tempfile` and the IO, Tempfile and upload sources (`io.rb`,
  `tempfile.rb`) are left out. A temp file's contents are modelled as the bytes it would hold;
  its random name and its directory are not.
- Image libraries, MD5, Base64, EXIF parsing, `DateTime.parse` and
  `image_path` are uninterpreted functions: pixel sizes, encoded sizes and
  format tables are not modelled.
- The network, the S3 service and the database are abstract maps and a
  reply oracle. S3 connection setup (`s3.rb:26-33`) is not part of this model.
- Memoised instance variables (`@pathname`, `@s3obj`, `@image`,
  `@exif_data`) are not modelled as cached state. So the errors Ruby raises when it first
  assigns them on a frozen source are absent. The exceptions are RMagick's cached image, blob and temp file
  and Http's response cache, which are modelled.
- Http's `blob`, `mime_type` and `size` read the response cache but do not
  keep the response they fetch; only `valid?` and `digest` pass the updated
  cache on. So after a failed GET, a second `blob` downloads again, where Ruby
  returns the body of the HEAD response it still holds.
- `FileUtils.mkdir_p` over an existing file, `cp` failures, `chmod`, and
  `Pathname#delete` on a directory are not modelled: the file system is a
  map of files plus a set of directories.
- `Pathname#realpath` is modelled as `expand_path`: lexical folding of `.`,
  `..` and repeated `/`. Symbolic links are not resolved, and a `..` after a
  missing directory is folded where `realpath` would raise ENOENT.
- `~user` in `expand_path` is not expanded; only `~` and `~/` are.
- `image_path` with an asset host, which yields an absolute URL, is not
  modelled: an icon path is parsed as a relative URI.
- Sources.BaseMetadata: with a cleared primer (a destroyed source), it reports
  the NilReceiver error only after all four accessors have been read. Ruby
  raises at the first truthy write, and returns nil without raising when all
  four are falsy.
- Sources.BaseMetadata: returns the merged hash as a value. The source writes
  the keys into `@metadata` in place, which is the hash the caller passed in, so
  the caller's hash changes and the written entries stay for later calls;
  that in-place update and its aliasing are not modelled.
- `URI.parse` failures are not modelled: every URI is already parsed, and the default `:store`
  proc's string is taken as the `file` URI it spells.
- The custom `:store` proc and the other `has_attachment` options of the
  current revision are left out. So are callbacks, associations, aspect creation (`create_aspects`),
  `save_source`, `process!` and `data_required?`. `has_attachment` is
  modelled for attachment_fu, whose option defaulting the current revision
  repeats. Its content-type expansion is modelled in `ContentTypes`.
- Ruby 1.8 raises on `"".to_sym`; the model lets an empty string be a symbol.
- `\w` is taken as ASCII letters, digits and `_` (no `$KCODE`).
- Two calls to nonexistent methods are modelled only as the UndefinedMethod
  error they raise. These are `Memory#mime_type`'s call to `s3obj` without a primer MIME type, and
  `File#readonly?`'s call to `writeable?` on an unfrozen file.
- A nil S3 bucket or key is modelled as an error before any write, and a
  nil blob passed to `S3Object.store` as empty content; the SDK's own
  behaviour is not part of this model.
- `AttachmentBlob.find` of a non-numeric id is RecordNotFound, as for any
  missing row.
- Source identity in the previous-source guard (`@source == parent.source`)
  is a boolean parameter. The `source` reader's reload-and-rescue is taken as
  already resolved to an optional source.
- The preset table that `Sources::Rmagick::StandardImageGeometry` names is
  taken to be the one `init.rb:10-13` defines, with the `>` shrink-only flag
  kept and its effect left to ImageMagick.
- HttpSource.Valid: the outcome is characterised exactly only for a source
  whose response cache is empty; with a cached HEAD response it only states
  that an unfrozen source does not raise.
- RmagickSource.Process: states the state reset and when processing
  succeeds, not the resized image's dimensions, which ImageMagick decides.
- Sources.DigestOf: states only that non-Http sources use Base's digest;
  Http's rule is stated by HttpSource.DigestRule.
- Attach.StorageUri: its own contract states only the scheme and host; the
  file name is stated by Attach.StorageUriShape.

## Findings

| source | as written | input that shows it | evidently intended | confidence | as-written member | corrected member |
|---|---|---|---|---|---|---|
| lib/hapgood/attach/sources/base.rb:46-56 | `reload` (and `store`, lines 77-85) have no branch for the `memory` scheme, although the Memory backend implements both | reloading `memory:/k`, the URI a Memory store returns, raises "Source for scheme 'memory' not supported for reloading" | `memory` dispatches to `Memory.reload` and `Memory.store`, so a stored source reloads | medium; not executed | Findings.MemoryNotDispatched | Findings.MemoryRoundTrip |
| lib/hapgood/attach/sources/base.rb:69 | `process(:info)` wraps `:jpg` and `:tiff` sources, but `EXIFR#image` (exifr.rb:60) reads only `:jpg` and `:tif` | a source whose MIME type is registered with symbol `:tiff` is wrapped and its `metadata` raises "Can't process source with MIME type"; one with `:tif` is never wrapped | route on the symbols EXIFR reads | medium; not executed | Findings.TiffRoutedButRefused | Findings.RoutedSourcesAreReadable |
| lib/hapgood/attach/sources/memory.rb:32 | `@error = "No such key in store #{key}" && false` assigns `false`, because `&&` binds tighter than `=` | a Memory source whose key is not in the table: `valid?` is false and `error` is false, so `valid_source?` adds no error | `(@error = "No such key in store #{key}") && false` | high; not executed | Findings.MissingKeyUnreported | Findings.MissingKeyReported |
| lib/hapgood/attach/sources/s3.rb:93 | `s3obj.delete`, where `s3obj` (lines 102-110) has already rescued NoSuchKey into nil, so the `rescue AWS::S3::NoSuchKey` never fires | destroying an unfrozen S3 source whose object is gone raises NoMethodError, which `destroy_source` does not swallow | a missing object raises MissingSource, which `destroy_source` swallows | medium; not executed | Findings.MissingObjectEscapes | Findings.DiscardS3Quietly |
