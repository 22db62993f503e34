/** The timestamp rewrite the RMagick source applies to an EXIF date before
    parsing it: in every line, the two separators of a leading
    `digits [:/] digits [:/] digits` date become dashes. */
module ExifTime {
  import opened Outcomes
  import opened Text

  predicate IsDateSep(c: char) {
    c == ':' || c == '/'
  }

  /** The end of the run of digits that starts at `i`. */
  function DigitRun(s: string, i: nat): (j: nat)
    requires i <= |s|
    ensures i <= j <= |s|
    ensures forall k :: i <= k < j ==> IsDigit(s[k])
    ensures j < |s| ==> !IsDigit(s[j])
    decreases |s| - i
  {
    if i < |s| && IsDigit(s[i]) then DigitRun(s, i + 1) else i
  }

  /** `a` and `b` are the separators of a date at the start of `line`. */
  predicate DateAt(line: string, a: nat, b: nat) {
    0 < a && a + 1 < b && b + 1 < |line| &&
    IsDateSep(line[a]) && IsDateSep(line[b]) && IsDigit(line[b + 1]) &&
    (forall k :: 0 <= k < a ==> IsDigit(line[k])) &&
    (forall k :: a < k < b ==> IsDigit(line[k]))
  }

  /** The separators of the leading date of `line`, when it has one. */
  function DateSeparators(line: string): (r: Option<(nat, nat)>)
    ensures r.Some? ==> DateAt(line, r.value.0, r.value.1)
  {
    var a := DigitRun(line, 0);
    if 0 < a < |line| && IsDateSep(line[a]) then
      var b := DigitRun(line, a + 1);
      if a + 1 < b && b + 1 < |line| && IsDateSep(line[b]) && IsDigit(line[b + 1]) then Some((a, b))
      else None
    else None
  }

  /** Every leading date is found: its separators are the ones reported. */
  lemma DateSeparatorsComplete(line: string, a: nat, b: nat)
    requires DateAt(line, a, b)
    ensures DateSeparators(line) == Some((a, b))
  {
    DigitRunStops(line, 0, a);
    DigitRunStops(line, a + 1, b);
  }

  lemma {:induction false} DigitRunStops(s: string, i: nat, j: nat)
    requires i <= j < |s| && !IsDigit(s[j])
    requires forall k :: i <= k < j ==> IsDigit(s[k])
    ensures DigitRun(s, i) == j
    decreases j - i
  {
    if i < j {
      DigitRunStops(s, i + 1, j);
    }
  }

  /** The rewrite of one line: the date's separators become `-`, every other
      character stays. */
  function NormalizeDate(line: string): (r: string)
    ensures |r| == |line|
    ensures DateSeparators(line).None? ==> r == line
    ensures DateSeparators(line).Some? ==>
      var (a, b) := DateSeparators(line).value;
      r[a] == '-' && r[b] == '-' &&
      forall k :: 0 <= k < |line| && k != a && k != b ==> r[k] == line[k]
  {
    match DateSeparators(line)
    case None => line
    case Some((a, b)) => line[a := '-'][b := '-']
  }

  /** Only colons and slashes change, and only into dashes. */
  lemma NormalizeDateChanges(line: string)
    ensures forall k :: 0 <= k < |line| && NormalizeDate(line)[k] != line[k] ==>
      IsDateSep(line[k]) && NormalizeDate(line)[k] == '-'
  {
  }

  lemma NormalizeDateIdempotent(line: string)
    ensures NormalizeDate(NormalizeDate(line)) == NormalizeDate(line)
  {
    var r := NormalizeDate(line);
    if DateSeparators(line).Some? {
      var (a, b) := DateSeparators(line).value;
      assert forall k :: 0 <= k < a ==> r[k] == line[k];
      DigitRunStops(r, 0, a);
      assert !IsDateSep(r[a]);
      assert DateSeparators(r).None?;
    }
  }

  /** `timestamp.gsub!(/^\d+(:|\/)\d+(:|\/)\d+/) { ... }`: the rewrite of every line. */
  function NormalizeTimestamp(ts: string): string
  {
    MapLines(ts, NormalizeDate)
  }

  lemma NewlineFree(line: string)
    requires '\n' !in line
    ensures '\n' !in NormalizeDate(line)
  {
    NormalizeDateChanges(line);
    var r := NormalizeDate(line);
    forall k | 0 <= k < |r|
      ensures r[k] != '\n'
    {
      if r[k] != line[k] {
        assert r[k] == '-';
      }
    }
  }

  /** Normalising a timestamp twice changes nothing further. */
  lemma {:induction false} NormalizeTimestampIdempotent(ts: string)
    ensures NormalizeTimestamp(NormalizeTimestamp(ts)) == NormalizeTimestamp(ts)
    decreases |ts|
  {
    if '\n' in ts {
      var i := IndexOf(ts, '\n');
      var line, rest := ts[..i], ts[i + 1..];
      assert ts == line + "\n" + rest;
      MapLinesCons(line, rest, NormalizeDate);
      var head, tail := NormalizeDate(line), NormalizeTimestamp(rest);
      NewlineFree(line);
      MapLinesCons(head, tail, NormalizeDate);
      NormalizeDateIdempotent(line);
      NormalizeTimestampIdempotent(rest);
    } else {
      NewlineFree(ts);
      NormalizeDateIdempotent(ts);
    }
  }
}
