/** Parsed URIs, as far as the sources look at them: the scheme (nil for a
    bare relative path), the host, and the path. */
module Uris {
  import opened Outcomes
  import opened Text

  datatype Uri = Uri(scheme: Option<string>, host: Option<string>, path: string)

  /** `URI.parse("db:/<id>")`: the identity of a stored database row. */
  function DbUri(id: nat): (u: Uri)
    ensures u.scheme == Some("db") && LastSegment(u.path) == Some(ShowNat(id))
  {
    ShowNatPlain(id);
    LastSegmentOfChild("", ShowNat(id));
    assert "" + "/" + ShowNat(id) == "/" + ShowNat(id);
    Uri(Some("db"), None, "/" + ShowNat(id))
  }

  /** `URI.parse("file://localhost/").merge(path)` for an absolute path. */
  function LocalFileUri(path: string): Uri
  {
    Uri(Some("file"), Some("localhost"), path)
  }

  /** Where the path of a relative reference ends: at its first `?` or `#`. */
  function PathEnd(s: string): (i: nat)
    ensures i <= |s| && '?' !in s[..i] && '#' !in s[..i]
    ensures i < |s| ==> s[i] == '?' || s[i] == '#'
  {
    if |s| == 0 || s[0] == '?' || s[0] == '#' then 0
    else
      var j := PathEnd(s[1..]);
      assert s[..j + 1] == [s[0]] + s[1..][..j];
      j + 1
  }

  /** `URI.parse(s)` for a relative reference: a URI without scheme or host
      whose path stops at the query or fragment. */
  function ParseRelative(s: string): (u: Uri)
    ensures u.scheme.None? && u.host.None?
  {
    PathUri(s[..PathEnd(s)])
  }

  /** A plain path parses to itself, and a query or fragment after it is not
      part of the path. */
  lemma ParseRelativePath(p: string, rest: string)
    requires '?' !in p && '#' !in p
    ensures ParseRelative(p) == PathUri(p)
    ensures ParseRelative(p + "?" + rest) == PathUri(p)
    ensures ParseRelative(p + "#" + rest) == PathUri(p)
  {
    PathEndAt(p, "?" + rest);
    PathEndAt(p, "#" + rest);
    PathEndAt(p, "");
    assert p + "?" + rest == p + ("?" + rest);
    assert p + "#" + rest == p + ("#" + rest);
  }

  lemma {:induction false} PathEndAt(p: string, t: string)
    requires '?' !in p && '#' !in p
    requires t == "" || t[0] == '?' || t[0] == '#'
    ensures PathEnd(p + t) == |p|
    ensures (p + t)[..|p|] == p
    decreases |p|
  {
    if |p| > 0 {
      assert (p + t)[1..] == p[1..] + t;
      PathEndAt(p[1..], t);
    }
  }

  /** A scheme-less URI holding only a path, as `URI.parse("/x/y")` gives. */
  function PathUri(path: string): Uri
  {
    Uri(None, None, path)
  }
}
