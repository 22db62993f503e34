/** The metadata model: Rails MIME types, the dynamically typed values a Ruby
    metadata hash holds, and the hash operations the sources use. */
module Metadata {
  import opened Outcomes
  import opened Text

  newtype byte = x: int | 0 <= x < 256

  type Bytes = seq<byte>

  /** A `Mime::Type`: its type string and its registered symbol; a type that
      `Mime::Type.lookup` had to invent for an unknown string has no symbol. */
  datatype Mime = Mime(name: string, symbol: Option<string>)

  /** A value stored in a metadata hash. */
  datatype Value =
    | Nil
    | Str(s: string)
    | Int(n: int)
    | Binary(b: Bytes)
    | MimeValue(m: Mime)
    | Time(stamp: string)

  /** A metadata hash, keyed by symbol name. */
  type Meta = map<string, Value>

  const MIME_TYPE := "mime_type"
  const FILENAME := "filename"
  const DIGEST := "digest"
  const SIZE := "size"
  const HEIGHT := "height"
  const WIDTH := "width"
  const TIME := "time"
  const DATE_TIME := "date_time"
  const DATE_TIME_ORIGINAL := "date_time_original"

  /** `h[k]`: nil when the key is missing. */
  function Lookup(h: Meta, k: string): Value
  {
    if k in h then h[k] else Nil
  }

  /** Ruby truthiness (the model has no `false` values in hashes). */
  predicate Truthy(v: Value) {
    !v.Nil?
  }

  /** `a || b`. */
  function Or(a: Value, b: Value): (r: Value)
    ensures Truthy(a) ==> r == a
    ensures !Truthy(a) ==> r == b
  {
    if Truthy(a) then a else b
  }

  /** `h[k] = v if v`. */
  function SetIf(h: Meta, k: string, v: Value): (r: Meta)
    ensures Truthy(v) ==> r == h[k := v]
    ensures !Truthy(v) ==> r == h
  {
    if Truthy(v) then h[k := v] else h
  }

  /** `h.reverse_merge(other)`: entries of `other` whose key `h` lacks are added. */
  function ReverseMerge(h: Meta, other: Meta): (r: Meta)
    ensures r.Keys == h.Keys + other.Keys
    ensures forall k :: k in h ==> r[k] == h[k]
    ensures forall k :: k in other && k !in h ==> r[k] == other[k]
  {
    other + h
  }

  /** `Integer#to_s`, `String#to_s`, `Mime::Type#to_s`, `nil.to_s`. */
  function ToS(v: Value): string
  {
    match v
    case Nil => ""
    case Str(s) => s
    case Int(n) => ShowInt(n)
    case Binary(b) => seq(|b|, i requires 0 <= i < |b| => b[i] as char)
    case MimeValue(m) => m.name
    case Time(t) => t
  }

  /** `v.to_sym`: a MIME type's registered symbol (nil when unregistered), a
      string's own symbol; nil has no `to_sym` in Ruby 1.8. */
  function ToSym(v: Value): Result<Option<string>>
  {
    match v
    case MimeValue(m) => Ok(m.symbol)
    case Str(s) => Ok(Some(s))
    case Nil => Err(NilReceiver("to_sym"))
    case _ => Err(UndefinedMethod("to_sym"))
  }

  /** `sym.to_s` for a symbol that may be nil. */
  function SymbolText(sym: Option<string>): string
  {
    if sym.Some? then sym.value else ""
  }

  /** `Mime::Type.lookup(s)`: the registered type, or a fresh symbol-less one. */
  function LookupMime(types: map<string, Mime>, s: string): (m: Mime)
    ensures s !in types ==> m == Mime(s, None)
  {
    if s in types then types[s] else Mime(s, None)
  }

  /** `Mime::Type.lookup_by_extension(ext)`: nil when the extension is unknown. */
  function LookupExtension(extensions: map<string, Mime>, ext: string): Value
  {
    if ext in extensions then MimeValue(extensions[ext]) else Nil
  }

  /** The MIME type guessed from a path's extension (`extname[1..-1]`). */
  function MimeFromName(extensions: map<string, Mime>, name: string): Value
  {
    var e := Extname(name);
    if e == "" then Nil else LookupExtension(extensions, e[1..])
  }
}
