/** String and path utilities with the Ruby semantics the sources rely on:
    `String#split`, `Array#[-1]`, `Integer#to_s`/`String#to_i`, `gsub` of a
    single character, `File.basename`/`File.extname`, `File.join`,
    `String#strip`, and line-anchored rewriting (Ruby's `^`/`$` match at every
    line start/end).
 */
module Text {
  import opened Outcomes

  // ---------------------------------------------------------------------------
  // Splitting on a separator
  // ---------------------------------------------------------------------------

  /** Every field of `s` between occurrences of `sep`, empty ones included
      (Ruby's `s.split(sep, -1)`). */
  function Fields(s: string, sep: char): (r: seq<string>)
    ensures |r| >= 1
    ensures forall i :: 0 <= i < |r| ==> sep !in r[i]
    decreases |s|
  {
    if |s| == 0 then [""]
    else
      var rest := Fields(s[1..], sep);
      if s[0] == sep then [""] + rest
      else [[s[0]] + rest[0]] + rest[1..]
  }

  /** Fields glued back together with `sep` between consecutive ones. */
  function Join(fs: seq<string>, sep: char): string
  {
    if |fs| == 0 then ""
    else if |fs| == 1 then fs[0]
    else fs[0] + [sep] + Join(fs[1..], sep)
  }

  /** Splitting and joining are inverse: no character is lost or invented. */
  lemma {:induction false} JoinFields(s: string, sep: char)
    ensures Join(Fields(s, sep), sep) == s
    decreases |s|
  {
    if |s| == 0 {
    } else {
      var rest := Fields(s[1..], sep);
      JoinFields(s[1..], sep);
      if s[0] == sep {
        assert Fields(s, sep) == [""] + rest;
        assert Join([""] + rest, sep) == "" + [sep] + Join(rest, sep);
        assert s == [s[0]] + s[1..];
      } else {
        var fs := Fields(s, sep);
        assert fs == [[s[0]] + rest[0]] + rest[1..];
        if |rest| == 1 {
          assert Join(fs, sep) == [s[0]] + rest[0];
          assert s == [s[0]] + s[1..];
        } else {
          assert fs[1..] == rest[1..];
          assert Join(rest, sep) == rest[0] + [sep] + Join(rest[1..], sep);
          assert Join(fs, sep) == ([s[0]] + rest[0]) + [sep] + Join(rest[1..], sep);
          assert s == [s[0]] + s[1..];
        }
      }
    }
  }

  /** A separator between two strings splits exactly there. */
  lemma {:induction false} FieldsAround(a: string, b: string, sep: char)
    ensures Fields(a + [sep] + b, sep) == Fields(a, sep) + Fields(b, sep)
    decreases |a|
  {
    if |a| == 0 {
      assert a + [sep] + b == [sep] + b;
      assert ([sep] + b)[1..] == b;
    } else {
      var s := a + [sep] + b;
      assert s[0] == a[0];
      assert s[1..] == a[1..] + [sep] + b;
      FieldsAround(a[1..], b, sep);
      var fa := Fields(a[1..], sep);
      if a[0] == sep {
        assert Fields(a, sep) == [""] + fa;
      } else {
        assert Fields(a, sep) == [[a[0]] + fa[0]] + fa[1..];
      }
    }
  }

  /** A string free of the separator is a single field. */
  lemma {:induction false} FieldsOfPlain(s: string, sep: char)
    requires sep !in s
    ensures Fields(s, sep) == [s]
    decreases |s|
  {
    if |s| > 0 {
      assert s[0] != sep;
      assert forall c :: c in s[1..] ==> c in s;
      FieldsOfPlain(s[1..], sep);
      assert [s[0]] + s[1..] == s;
    }
  }

  /** Ruby drops the trailing empty fields of `split` when no limit is given. */
  function DropTrailingEmpty(fs: seq<string>): (r: seq<string>)
    ensures |r| <= |fs| && r == fs[..|r|]
    ensures |r| > 0 ==> r[|r| - 1] != ""
    ensures forall i :: |r| <= i < |fs| ==> fs[i] == ""
  {
    if |fs| > 0 && fs[|fs| - 1] == "" then DropTrailingEmpty(fs[..|fs| - 1]) else fs
  }

  /** Ruby's `s.split(sep)`. */
  function Split(s: string, sep: char): seq<string>
  {
    DropTrailingEmpty(Fields(s, sep))
  }

  /** Ruby's `array[i]` for a non-negative index: nil past the end. */
  function At(fs: seq<string>, i: nat): Option<string>
  {
    if i < |fs| then Some(fs[i]) else None
  }

  /** Ruby's `array[-1]`: nil for an empty array. */
  function Last(fs: seq<string>): Option<string>
  {
    if |fs| == 0 then None else Some(fs[|fs| - 1])
  }

  /** `path.split('/')[-1]`: the key, id or file name the backends read from a URI path. */
  function LastSegment(path: string): Option<string>
  {
    Last(Split(path, '/'))
  }

  /** `path.split('/')[i]`. */
  function Segment(path: string, i: nat): Option<string>
  {
    At(Split(path, '/'), i)
  }

  /** The last segment is never empty and never holds a separator. */
  lemma LastSegmentShape(path: string)
    ensures LastSegment(path).Some? ==> LastSegment(path).value != "" && '/' !in LastSegment(path).value
  {
    var fs := Fields(path, '/');
    var r := Split(path, '/');
    if |r| > 0 {
      assert r[|r| - 1] == fs[|r| - 1];
    }
  }

  /** The segment after the final `/` of `dir + "/" + name` is `name`. */
  lemma {:induction false} LastSegmentOfChild(dir: string, name: string)
    requires name != "" && '/' !in name
    ensures LastSegment(dir + "/" + name) == Some(name)
  {
    FieldsAround(dir, name, '/');
    FieldsOfPlain(name, '/');
    assert dir + "/" + name == dir + ['/'] + name;
    var fs := Fields(dir, '/') + [name];
    assert Fields(dir + "/" + name, '/') == fs;
    assert fs[|fs| - 1] == name;
  }

  /** For `"/" + bucket + "/" + key` the bucket is segment 1 and the key the last one. */
  lemma {:induction false} SegmentsOfBucketPath(bucket: string, key: string)
    requires bucket != "" && '/' !in bucket
    requires key != "" && '/' !in key
    ensures Segment("/" + bucket + "/" + key, 1) == Some(bucket)
    ensures LastSegment("/" + bucket + "/" + key) == Some(key)
  {
    var p := "/" + bucket + "/" + key;
    FieldsAround("/" + bucket, key, '/');
    FieldsAround("", bucket, '/');
    FieldsOfPlain(bucket, '/');
    FieldsOfPlain(key, '/');
    assert "" + ['/'] + bucket == "/" + bucket;
    assert p == ("/" + bucket) + ['/'] + key;
    var fs := [""] + [bucket] + [key];
    assert Fields("/" + bucket, '/') == [""] + [bucket];
    assert Fields(p, '/') == fs;
    assert DropTrailingEmpty(fs) == fs;
  }

  // ---------------------------------------------------------------------------
  // Single-character substitution
  // ---------------------------------------------------------------------------

  /** `s.gsub(from, to)` for one-character strings. */
  function ReplaceChar(s: string, from: char, to: char): (r: string)
    ensures |r| == |s|
    ensures forall i :: 0 <= i < |s| ==> r[i] == (if s[i] == from then to else s[i])
  {
    if |s| == 0 then "" else [if s[0] == from then to else s[0]] + ReplaceChar(s[1..], from, to)
  }

  /** After the substitution the replaced character is gone. */
  lemma ReplaceCharRemoves(s: string, from: char, to: char)
    requires from != to
    ensures from !in ReplaceChar(s, from, to)
  {
    var r := ReplaceChar(s, from, to);
    forall i | 0 <= i < |r| ensures r[i] != from {
    }
  }

  // ---------------------------------------------------------------------------
  // Decimal numerals
  // ---------------------------------------------------------------------------

  predicate IsDigit(c: char) { '0' <= c <= '9' }

  predicate AllDigits(s: string) { forall i :: 0 <= i < |s| ==> IsDigit(s[i]) }

  function DigitChar(d: nat): char
    requires d < 10
  {
    (48 + d) as char
  }

  function DigitValue(c: char): nat
    requires IsDigit(c)
  {
    (c as int - 48) as nat
  }

  /** `Integer#to_s` for a non-negative integer. */
  function ShowNat(n: nat): (r: string)
    ensures |r| > 0 && AllDigits(r)
  {
    if n < 10 then [DigitChar(n)] else ShowNat(n / 10) + [DigitChar(n % 10)]
  }

  /** `Integer#to_s`. */
  function ShowInt(n: int): string
  {
    if n < 0 then "-" + ShowNat(-n) else ShowNat(n)
  }

  function DigitsValue(s: string): nat
    requires AllDigits(s)
  {
    if |s| == 0 then 0 else 10 * DigitsValue(s[..|s| - 1]) + DigitValue(s[|s| - 1])
  }

  /** The row id an ActiveRecord finder reads from a decimal segment; None when
      the segment is not a numeral, in which case no row can match. */
  function ParseNat(s: string): Option<nat>
  {
    if |s| > 0 && AllDigits(s) then Some(DigitsValue(s)) else None
  }

  /** Reading back a shown numeral yields the number. */
  lemma {:induction false} ParseShowNat(n: nat)
    ensures ParseNat(ShowNat(n)) == Some(n)
  {
    ShowDigitsValue(n);
  }

  lemma {:induction false} ShowDigitsValue(n: nat)
    ensures DigitsValue(ShowNat(n)) == n
  {
    var s := ShowNat(n);
    if n < 10 {
      assert s[..0] == "";
    } else {
      ShowDigitsValue(n / 10);
      assert s[..|s| - 1] == ShowNat(n / 10);
    }
  }

  /** Shown numerals hold neither separators nor an `x`. */
  lemma ShowNatPlain(n: nat)
    ensures '/' !in ShowNat(n) && 'x' !in ShowNat(n) && '-' !in ShowNat(n)
  {
    var s := ShowNat(n);
    assert forall c :: c in s ==> IsDigit(c);
  }

  // ---------------------------------------------------------------------------
  // Whitespace
  // ---------------------------------------------------------------------------

  /** C `isspace` in the C locale, which Ruby 1.8's `strip` uses. */
  predicate IsSpace(c: char) {
    c == ' ' || c == '\t' || c == '\n' || c == '\r' || c == 11 as char || c == 12 as char
  }

  function TrimLeft(s: string): (r: string)
    ensures |r| <= |s| && r == s[|s| - |r|..]
    ensures |r| > 0 ==> !IsSpace(r[0])
  {
    if |s| > 0 && IsSpace(s[0]) then TrimLeft(s[1..]) else s
  }

  function TrimRight(s: string): (r: string)
    ensures |r| <= |s| && r == s[..|r|]
    ensures |r| > 0 ==> !IsSpace(r[|r| - 1]) && r[|r| - 1] != '\0'
  {
    if |s| > 0 && (IsSpace(s[|s| - 1]) || s[|s| - 1] == '\0') then TrimRight(s[..|s| - 1]) else s
  }

  /** Ruby 1.8's `String#strip`: leading whitespace, trailing whitespace and NULs. */
  function Strip(s: string): string
  {
    TrimRight(TrimLeft(s))
  }

  /** Ruby's `String#blank?`: empty or whitespace only. */
  predicate Blank(s: string) {
    forall i :: 0 <= i < |s| ==> IsSpace(s[i])
  }

  // ---------------------------------------------------------------------------
  // Line-anchored rewriting
  // ---------------------------------------------------------------------------

  function IndexOf(s: string, c: char): (i: nat)
    requires c in s
    ensures i < |s| && s[i] == c && c !in s[..i]
  {
    if s[0] == c then 0 else 1 + IndexOf(s[1..], c)
  }

  /** Applies `f` to every line of `s` (the pieces between newlines): this is how
      a Ruby `gsub` whose pattern is anchored with `^` or `$` acts. */
  function MapLines(s: string, f: string -> string): string
    decreases |s|
  {
    if '\n' in s then
      var i := IndexOf(s, '\n');
      f(s[..i]) + "\n" + MapLines(s[i + 1..], f)
    else f(s)
  }

  /** The first line of `head + "\n" + tail` is `head`. */
  lemma {:induction false} MapLinesCons(head: string, tail: string, f: string -> string)
    requires '\n' !in head
    ensures MapLines(head + "\n" + tail, f) == f(head) + "\n" + MapLines(tail, f)
  {
    var s := head + "\n" + tail;
    IndexOfJoin(head, tail, '\n');
    assert s[..|head|] == head;
    assert s[|head| + 1..] == tail;
  }

  lemma {:induction false} IndexOfJoin(head: string, tail: string, c: char)
    requires c !in head
    ensures c in head + [c] + tail
    ensures IndexOf(head + [c] + tail, c) == |head|
    decreases |head|
  {
    var t := head + [c] + tail;
    assert t[|head|] == c;
    if |head| > 0 {
      assert t[1..] == head[1..] + [c] + tail;
      IndexOfJoin(head[1..], tail, c);
    }
  }

  // ---------------------------------------------------------------------------
  // Paths
  // ---------------------------------------------------------------------------

  /** Position just after the last `c` in `s`, or 0 when there is none. */
  function AfterLast(s: string, c: char): (i: nat)
    ensures i <= |s|
    ensures c !in s[i..]
    ensures i > 0 ==> s[i - 1] == c
  {
    if |s| == 0 then 0
    else if s[|s| - 1] == c then |s|
    else
      var j := AfterLast(s[..|s| - 1], c);
      assert s[j..] == s[..|s| - 1][j..] + [s[|s| - 1]];
      j
  }

  function DropTrailing(s: string, c: char): (r: string)
    ensures |r| <= |s| && r == s[..|r|]
    ensures |r| == 0 || r[|r| - 1] != c
  {
    if |s| > 0 && s[|s| - 1] == c then DropTrailing(s[..|s| - 1], c) else s
  }

  /** `File.basename(path)`: the last component, trailing separators ignored. */
  function Basename(path: string): string
  {
    var t := DropTrailing(path, '/');
    if t == "" then (if path == "" then "" else "/") else t[AfterLast(t, '/')..]
  }

  /** `File.extname` of a base name: from its last dot to the end, or empty when
      the dot is missing, leading or final. */
  function ExtnameOf(base: string): (r: string)
    ensures r == "" || (|r| >= 2 && r[0] == '.' && |r| < |base| && r == base[|base| - |r|..])
  {
    var i := AfterLast(base, '.');
    if i <= 1 || i == |base| then "" else base[i - 1..]
  }

  function Extname(path: string): string
  {
    ExtnameOf(Basename(path))
  }

  /** `File.basename(path, ext)`: the base name with `ext` removed when it ends it. */
  function BasenameWithout(path: string, ext: string): string
  {
    var b := Basename(path);
    if ext != "" && |ext| < |b| && b[|b| - |ext|..] == ext then b[..|b| - |ext|] else b
  }

  /** The last `c` of `s` is at `j`. */
  lemma AfterLastAt(s: string, c: char, j: nat)
    requires j < |s| && s[j] == c
    requires forall k :: j < k < |s| ==> s[k] != c
    ensures AfterLast(s, c) == j + 1
  {
    assert s[j..][0] == c;
  }

  /** A name without separators or dots is its own base name and has no
      extension. */
  lemma PlainName(n: string)
    requires n != "" && '/' !in n && '.' !in n
    ensures Basename(n) == n && Extname(n) == "" && BasenameWithout(n, "") == n
  {
    assert DropTrailing(n, '/') == n;
    assert AfterLast(n, '/') == 0;
    assert AfterLast(n, '.') == 0;
  }

  /** A non-empty name without separators is its own base name. */
  lemma BasenameOfName(n: string)
    requires n != "" && '/' !in n
    ensures Basename(n) == n
  {
    assert n[|n| - 1] != '/';
    assert DropTrailing(n, '/') == n;
    assert AfterLast(n, '/') == 0;
  }

  /** In `stem.ext` the last dot is the one after the stem. */
  lemma LastDotOfDotted(stem: string, ext: string)
    requires '.' !in ext
    ensures AfterLast(stem + "." + ext, '.') == |stem| + 1
  {
    var n := stem + "." + ext;
    assert n[|stem|] == '.';
    forall k | |stem| < k < |n|
      ensures n[k] != '.'
    {
      assert n[k] == ext[k - |stem| - 1];
    }
    AfterLastAt(n, '.', |stem|);
  }

  lemma NoSlashInDotted(stem: string, ext: string)
    requires '/' !in stem && '/' !in ext
    ensures '/' !in stem + "." + ext
  {
    var n := stem + "." + ext;
    forall k | 0 <= k < |n|
      ensures n[k] != '/'
    {
      if k < |stem| { assert n[k] == stem[k]; }
      else if k > |stem| { assert n[k] == ext[k - |stem| - 1]; }
    }
  }

  /** The extension of a base name `stem.ext` is `.ext`. */
  lemma ExtnameOfDotted(n: string, stem: string, ext: string)
    requires n == stem + "." + ext && Basename(n) == n
    requires stem != "" && ext != "" && '.' !in ext
    ensures Extname(n) == "." + ext
  {
    assert Extname(n) == ExtnameOf(n);
    LastDotOfDotted(stem, ext);
    assert n[|stem|..] == "." + ext;
  }

  /** Removing `.ext` from the base name `stem.ext` leaves the stem. */
  lemma WithoutDotted(n: string, stem: string, ext: string)
    requires n == stem + "." + ext && Basename(n) == n && stem != ""
    ensures BasenameWithout(n, "." + ext) == stem
  {
    assert n[|stem|..] == "." + ext;
    assert n[..|stem|] == stem;
  }

  /** `stem.ext`: the whole name is the base name, `.ext` the extension, and
      removing the extension leaves the stem. */
  lemma DottedName(stem: string, ext: string)
    requires stem != "" && ext != ""
    requires '/' !in stem && '/' !in ext && '.' !in ext
    ensures Basename(stem + "." + ext) == stem + "." + ext
    ensures Extname(stem + "." + ext) == "." + ext
    ensures BasenameWithout(stem + "." + ext, "." + ext) == stem
  {
    var n := stem + "." + ext;
    NoSlashInDotted(stem, ext);
    BasenameOfName(n);
    ExtnameOfDotted(n, stem, ext);
    WithoutDotted(n, stem, ext);
  }

  /** `File.join(a, b)`: exactly one separator between the two parts. */
  function JoinPath(a: string, b: string): string
  {
    var aSlash := |a| > 0 && a[|a| - 1] == '/';
    var bSlash := |b| > 0 && b[0] == '/';
    if aSlash && bSlash then a + b[1..]
    else if aSlash || bSlash then a + b
    else a + "/" + b
  }

  /** A component a clean absolute path keeps: not empty, not `.` or `..`,
      and free of separators. */
  predicate PlainComponent(c: string) {
    c != "" && c != "." && c != ".." && '/' !in c
  }

  predicate Clean(cs: seq<string>) {
    forall i :: 0 <= i < |cs| ==> PlainComponent(cs[i])
  }

  /** One step of folding: an empty or `.` component vanishes, `..` drops the
      last kept component (and stays at the root), any other is kept. */
  function FoldStep(kept: seq<string>, c: string): seq<string>
  {
    if c == "" || c == "." then kept
    else if c == ".." then (if |kept| == 0 then [] else kept[..|kept| - 1])
    else kept + [c]
  }

  /** The components of a rooted path, folded from left to right. */
  function Fold(cs: seq<string>): (r: seq<string>)
    ensures (forall i :: 0 <= i < |cs| ==> '/' !in cs[i]) ==> Clean(r)
  {
    if |cs| == 0 then []
    else
      var init := cs[..|cs| - 1];
      assert forall i :: 0 <= i < |init| ==> init[i] == cs[i];
      FoldStep(Fold(init), cs[|cs| - 1])
  }

  /** `File.expand_path(p)` for a path without `~`, which is also how the
      operating system resolves a path: a relative path is taken from the
      working directory, then empty and `.` components vanish and each `..`
      removes the component before it, stopping at the root. */
  function ExpandPath(cwd: string, p: string): (r: string)
    ensures |r| > 0 && r[0] == '/'
  {
    "/" + Join(Fold(Fields(Absolute(cwd, p), '/')), '/')
  }

  /** A rooted path as it is, any other under the working directory. */
  function Absolute(cwd: string, p: string): string
  {
    if |p| > 0 && p[0] == '/' then p else cwd + "/" + p
  }

  lemma {:induction false} FieldsOfJoin(cs: seq<string>)
    requires |cs| > 0 && forall i :: 0 <= i < |cs| ==> '/' !in cs[i]
    ensures Fields(Join(cs, '/'), '/') == cs
    decreases |cs|
  {
    FieldsOfPlain(cs[0], '/');
    if |cs| > 1 {
      FieldsOfJoin(cs[1..]);
      FieldsAround(cs[0], Join(cs[1..], '/'), '/');
      assert cs == [cs[0]] + cs[1..];
    }
  }

  lemma {:induction false} NonEmptyKeeps(cs: seq<string>)
    requires forall i :: 0 <= i < |cs| ==> cs[i] != ""
    ensures NonEmpty(cs) == cs
    decreases |cs|
  {
    if |cs| > 0 {
      NonEmptyKeeps(cs[1..]);
      assert cs == [cs[0]] + cs[1..];
    }
  }

  /** Splitting a rooted join of clean components gives back an empty root
      field and those components. */
  lemma RootedFields(cs: seq<string>)
    requires Clean(cs)
    ensures Fields("/" + Join(cs, '/'), '/') == (if cs == [] then ["", ""] else [""] + cs)
    ensures Components("/" + Join(cs, '/')) == cs
  {
    assert "/" + Join(cs, '/') == "" + ['/'] + Join(cs, '/');
    FieldsAround("", Join(cs, '/'), '/');
    if cs == [] {
      assert NonEmpty(["", ""]) == [];
    } else {
      FieldsOfJoin(cs);
      NonEmptyKeeps(cs);
      assert ([""] + cs)[1..] == cs;
    }
  }

  /** Clean components after a folded prefix are appended unchanged. */
  lemma {:induction false} FoldAppendClean(xs: seq<string>, k: seq<string>)
    requires Clean(k)
    ensures Fold(xs + k) == Fold(xs) + k
    decreases |k|
  {
    if |k| == 0 {
      assert xs + k == xs;
    } else {
      var init := k[..|k| - 1];
      assert (xs + k)[..|xs + k| - 1] == xs + init;
      FoldAppendClean(xs, init);
      assert PlainComponent(k[|k| - 1]);
      assert k == init + [k[|k| - 1]];
    }
  }

  /** An expanded path is rooted, its components are clean, and expanding it
      again changes nothing. */
  lemma ExpandPathClean(cwd: string, p: string)
    ensures Clean(Components(ExpandPath(cwd, p)))
    ensures ExpandPath(cwd, ExpandPath(cwd, p)) == ExpandPath(cwd, p)
  {
    var k := Fold(Fields(Absolute(cwd, p), '/'));
    assert ExpandPath(cwd, p) == "/" + Join(k, '/');
    RootedFields(k);
    ExpandRooted(cwd, k);
  }

  /** A rooted path of clean components is its own expansion. */
  lemma ExpandRooted(cwd: string, k: seq<string>)
    requires Clean(k)
    ensures ExpandPath(cwd, "/" + Join(k, '/')) == "/" + Join(k, '/')
  {
    var e := "/" + Join(k, '/');
    RootedFields(k);
    if k == [] {
      assert ["", ""][..1] == [""];
      assert Fold(["", ""]) == [];
    } else {
      FoldAppendClean([""], k);
      assert Fold([""]) == [];
    }
    assert Fold(Fields(e, '/')) == k;
  }

  /** Folding depends on the prefix only through what the prefix folds to. */
  lemma {:induction false} FoldCongruent(xs: seq<string>, ys: seq<string>, zs: seq<string>)
    requires Fold(xs) == Fold(ys)
    ensures Fold(xs + zs) == Fold(ys + zs)
    decreases |zs|
  {
    if |zs| == 0 {
      assert xs + zs == xs && ys + zs == ys;
    } else {
      var init, last := zs[..|zs| - 1], zs[|zs| - 1];
      FoldCongruent(xs, ys, init);
      assert xs + zs == (xs + init) + [last];
      assert ys + zs == (ys + init) + [last];
      FoldSteps(xs + zs, xs + init, last);
      FoldSteps(ys + zs, ys + init, last);
    }
  }

  /** A plain component followed by `..` folds away, whatever comes after. */
  lemma FoldDropsParent(fs: seq<string>, c: string, gs: seq<string>)
    requires PlainComponent(c)
    ensures Fold(fs + [c, ".."] + gs) == Fold(fs + gs)
  {
    FoldSteps(fs + [c], fs, c);
    FoldSteps(fs + [c, ".."], fs + [c], "..");
    FoldCongruent(fs + [c, ".."], fs, gs);
  }

  /** A `.` folds away, whatever comes after. */
  lemma FoldDropsDot(fs: seq<string>, gs: seq<string>)
    ensures Fold(fs + ["."] + gs) == Fold(fs + gs)
  {
    FoldSteps(fs + ["."], fs, ".");
    FoldCongruent(fs + ["."], fs, gs);
  }

  /** A separator splits the fields there. */
  lemma FieldsSplit(a: string, b: string)
    ensures Fields(a + "/" + b, '/') == Fields(a, '/') + Fields(b, '/')
  {
    FieldsAround(a, b, '/');
  }

  /** A rooted path is expanded as it is. */
  lemma ExpandRootedPath(cwd: string, p: string)
    requires |p| > 0 && p[0] == '/'
    ensures ExpandPath(cwd, p) == "/" + Join(Fold(Fields(p, '/')), '/')
  {
  }

  /** A relative path is expanded as the working directory joined with it. */
  lemma ExpandRelative(cwd: string, p: string)
    requires |cwd| > 0 && cwd[0] == '/'
    requires !(|p| > 0 && p[0] == '/')
    ensures ExpandPath(cwd, p) == ExpandPath(cwd, cwd + "/" + p)
  {
  }

  /** `c/..` folds away: `p/c/../q` names what `p/q` names. */
  lemma ExpandFoldsParent(cwd: string, p: string, c: string, q: string)
    requires |p| > 0 && p[0] == '/' && PlainComponent(c)
    ensures ExpandPath(cwd, p + "/" + c + "/" + ".." + "/" + q) == ExpandPath(cwd, p + "/" + q)
  {
    var s1 := p + "/" + c;
    var s2 := s1 + "/" + "..";
    var s3 := s2 + "/" + q;
    FieldsSplit(p, c);
    FieldsSplit(s1, "..");
    FieldsSplit(s2, q);
    FieldsSplit(p, q);
    FieldsOfPlain(c, '/');
    FieldsOfPlain("..", '/');
    var fp, fq := Fields(p, '/'), Fields(q, '/');
    assert Fields(s3, '/') == fp + [c, ".."] + fq;
    FoldDropsParent(fp, c, fq);
    ExpandRootedPath(cwd, s3);
    ExpandRootedPath(cwd, p + "/" + q);
  }

  /** `.` folds away: `p/./q` names what `p/q` names. */
  lemma ExpandFoldsDot(cwd: string, p: string, q: string)
    requires |p| > 0 && p[0] == '/'
    ensures ExpandPath(cwd, p + "/" + "." + "/" + q) == ExpandPath(cwd, p + "/" + q)
  {
    var s1 := p + "/" + ".";
    var s2 := s1 + "/" + q;
    FieldsSplit(p, ".");
    FieldsSplit(s1, q);
    FieldsSplit(p, q);
    FieldsOfPlain(".", '/');
    var fp, fq := Fields(p, '/'), Fields(q, '/');
    assert Fields(s2, '/') == fp + ["."] + fq;
    FoldDropsDot(fp, fq);
    ExpandRootedPath(cwd, s2);
    ExpandRootedPath(cwd, p + "/" + q);
  }

  lemma FoldSteps(cs: seq<string>, init: seq<string>, last: string)
    requires cs == init + [last]
    ensures Fold(cs) == FoldStep(Fold(init), last)
  {
    assert cs[..|cs| - 1] == init;
  }

  function NonEmpty(fs: seq<string>): (r: seq<string>)
    ensures forall i :: 0 <= i < |r| ==> r[i] != ""
  {
    if |fs| == 0 then []
    else if fs[0] == "" then NonEmpty(fs[1..])
    else [fs[0]] + NonEmpty(fs[1..])
  }

  /** The components of a clean path. */
  function Components(p: string): seq<string>
  {
    NonEmpty(Fields(p, '/'))
  }

  function Repeat(s: string, n: nat): (r: seq<string>)
    ensures |r| == n && forall i :: 0 <= i < n ==> r[i] == s
  {
    if n == 0 then [] else [s] + Repeat(s, n - 1)
  }

  /** `Pathname#relative_path_from` on component lists of clean absolute paths:
      the common prefix is dropped, each remaining base component becomes `..`. */
  function RelativeComponents(dest: seq<string>, base: seq<string>): seq<string>
  {
    if |dest| > 0 && |base| > 0 && dest[0] == base[0] then RelativeComponents(dest[1..], base[1..])
    else Repeat("..", |base|) + dest
  }

  function RelativePath(dest: seq<string>, base: seq<string>): string
  {
    var r := RelativeComponents(dest, base);
    if r == [] then "." else Join(r, '/')
  }

  /** Ruby's `s =~ /\.\./`. */
  predicate HasDoubleDot(s: string) {
    exists i :: 0 <= i < |s| - 1 && s[i] == '.' && s[i + 1] == '.'
  }

  /** A path below the base is the remaining components. */
  lemma {:induction false} RelativeBelow(base: seq<string>, rest: seq<string>)
    ensures RelativeComponents(base + rest, base) == rest
    decreases |base|
  {
    if |base| > 0 {
      assert (base + rest)[1..] == base[1..] + rest;
      RelativeBelow(base[1..], rest);
    } else {
      assert base + rest == rest;
    }
  }

  /** A path that leaves the base starts with `..`. */
  lemma {:induction false} RelativeOutside(dest: seq<string>, base: seq<string>, k: nat)
    requires k < |base|
    requires k <= |dest|
    requires dest[..k] == base[..k]
    requires k == |dest| || dest[k] != base[k]
    ensures |RelativeComponents(dest, base)| > 0 && RelativeComponents(dest, base)[0] == ".."
    decreases k
  {
    if k > 0 {
      assert dest[0] == base[0] by { assert dest[..k][0] == base[..k][0]; }
      assert dest[1..][..k - 1] == dest[..k][1..];
      assert base[1..][..k - 1] == base[..k][1..];
      RelativeOutside(dest[1..], base[1..], k - 1);
    }
  }

  /** Joining a list whose first entry is `..` yields a string with a double dot. */
  lemma JoinStartsWithDots(fs: seq<string>)
    requires |fs| > 0 && fs[0] == ".."
    ensures HasDoubleDot(Join(fs, '/'))
  {
    var j := Join(fs, '/');
    if |fs| == 1 {
      assert j == "..";
    } else {
      assert j == ".." + ['/'] + Join(fs[1..], '/');
    }
    assert j[0] == '.' && j[1] == '.';
  }
}
