/** HTML/CSS identifiers (`generar_id_valido`, `get_unique_id`) and the export file name
    (`CottonTableView.get_export_filename`). */
module Identifiers {
  import opened Text

  /** An identifier HTML and CSS accept as written: no `.` and no leading digit. */
  predicate IsValidId(s: string) {
    (forall i :: 0 <= i < |s| ==> s[i] != '.') && (|s| == 0 || !IsDigit(s[0]))
  }

  /** `generar_id_valido`: every `.` becomes `-`, and `id-` goes in front of a leading digit. */
  function ValidId(base: string): (r: string)
    ensures IsValidId(r)
    ensures IsValidId(base) ==> r == base
    ensures |r| == |base| || (|r| == |base| + 3 && r[..3] == "id-")
    ensures |base| == 0 ==> r == ""
    ensures var o := if |base| > 0 && IsDigit(base[0]) then 3 else 0;
      |r| == |base| + o && r[..o] == "id-"[..o] &&
      forall i :: 0 <= i < |base| ==> r[o + i] == (if base[i] == '.' then '-' else base[i])
  {
    var sanitized := ReplaceChar(base, '.', '-');
    if |sanitized| > 0 && IsDigit(sanitized[0]) then "id-" + sanitized else sanitized
  }

  /** Applying `generar_id_valido` to its own output changes nothing. */
  lemma ValidIdIdempotent(base: string)
    ensures ValidId(ValidId(base)) == ValidId(base)
  {
  }

  /** `get_unique_id(prefix)`, with the six hexadecimal digits taken from a time-based UUID
      passed in as `component`. */
  function UniqueId(prefix: string, component: string): (r: string)
    ensures |r| >= |prefix| && r[..|prefix|] == prefix
    ensures IsValidId(r[|prefix|..])
    ensures IsValidId(component) ==> r[|prefix|..] == component
    ensures r[|prefix|..] == ValidId(component)
  {
    prefix + ValidId(component)
  }

  /** A character an export file name's stem may hold. */
  predicate IsStemChar(c: char) { IsLower(c) || IsDigit(c) || c == '_' }

  /** The part of `get_export_filename`'s result before the extension: every `View` deleted from
      the class name, the rest lower-cased, characters outside `[\w\s-]` dropped and each run of
      hyphens and white space turned into one underscore. */
  function ExportStem(className: string): (r: string)
    ensures forall i :: 0 <= i < |r| ==> IsStemChar(r[i])
  {
    var lowered := Lower(RemoveAll(className, "View"));
    var kept := KeepFilenameChars(lowered);
    var r := CollapseSeparators(kept);
    assert forall i :: 0 <= i < |r| ==> IsStemChar(r[i]) by {
      forall i | 0 <= i < |r| ensures IsStemChar(r[i]) {
        var c := r[i];
        assert c in r;
        if c != '_' {
          assert c in kept;
          var j :| 0 <= j < |lowered| && lowered[j] == c;
        }
      }
    }
    r
  }

  /** `get_export_filename(export_format)`: the stem, a dot and the format. */
  function ExportFilename(className: string, format: string): (r: string)
    ensures EndsWith(r, "." + format)
    ensures forall i :: 0 <= i < |r| - |format| - 1 ==> IsStemChar(r[i])
  {
    var stem := ExportStem(className);
    var r := stem + ("." + format);
    assert |r| - |format| - 1 == |stem|;
    assert forall i :: 0 <= i < |stem| ==> r[i] == stem[i];
    assert r[|stem|..] == "." + format;
    r
  }

  /** Once `View` is deleted, a name of word characters keeps its lower-cased self. */
  lemma StemOfWordChars(className: string, rest: string)
    requires RemoveAll(className, "View") == rest
    requires forall i :: 0 <= i < |rest| ==> IsWord(rest[i])
    ensures ExportStem(className) == Lower(rest)
  {
    var lowered := Lower(rest);
    assert forall i :: 0 <= i < |lowered| ==> IsWord(lowered[i]) && !IsSeparator(lowered[i]);
    assert KeepFilenameChars(lowered) == lowered;
    assert NoSeparators(lowered);
  }

  /** A class name of word characters without `View` in it gives its lower-cased self. */
  lemma ExportStemOfPlainName(className: string)
    requires forall i :: 0 <= i < |className| ==> IsWord(className[i])
    requires forall i :: !OccursAt(className, "View", i)
    ensures ExportStem(className) == Lower(className)
  {
    StemOfWordChars(className, className);
  }

  /** A view class `<stem>View` whose stem is made of word characters and holds no `V` exports to
      `<stem lower-cased>.<format>`. */
  lemma ExportFilenameOfViewClass(stem: string, format: string)
    requires forall i :: 0 <= i < |stem| ==> IsWord(stem[i])
    requires 'V' !in stem
    ensures ExportFilename(stem + "View", format) == Lower(stem) + "." + format
  {
    RemoveAllTrailing(stem, "View");
    StemOfWordChars(stem + "View", stem);
    ConcatAssoc(Lower(stem), ".", format);
  }

  /** Once `View` is deleted, a name of word characters, hyphens and white space is lower-cased
      and its runs of separators collapsed. */
  lemma StemOfFilenameChars(className: string, rest: string)
    requires RemoveAll(className, "View") == rest
    requires forall i :: 0 <= i < |rest| ==> IsWord(rest[i]) || IsSeparator(rest[i])
    ensures ExportStem(className) == CollapseSeparators(Lower(rest))
  {
    var lowered := Lower(rest);
    assert forall i :: 0 <= i < |lowered| ==> IsWord(lowered[i]) || IsSeparator(lowered[i]);
  }

  /** A name of two word-character parts, each followed by a run of hyphens or white space, then
      `View`: each run becomes one underscore and `View` goes. */
  lemma ExportFilenameWithSeparators(a: string, sep1: string, b: string, sep2: string, format: string)
    requires forall i :: 0 <= i < |a| ==> IsWord(a[i])
    requires forall i :: 0 <= i < |b| ==> IsWord(b[i])
    requires 'V' !in a && 'V' !in b && |b| > 0
    requires |sep1| > 0 && AllSeparators(sep1) && |sep2| > 0 && AllSeparators(sep2)
    ensures ExportFilename(a + sep1 + b + sep2 + "View", format) == Lower(a) + "_" + Lower(b) + "_." + format
  {
    var name := a + (sep1 + (b + sep2));
    var stem := Lower(a) + ("_" + (Lower(b) + "_"));
    assert ExportStem(name + "View") == stem by {
      SeparatedNameChars(a, sep1, b, sep2);
      RemoveAllTrailing(name, "View");
      StemOfFilenameChars(name + "View", name);
      LowerSeparatedName(a, sep1, b, sep2);
      LowerWordChars(a);
      LowerWordChars(b);
      CollapseTwoRuns(Lower(a), sep1, Lower(b), sep2);
    }
    RegroupFour(a, sep1, b, sep2);
    RegroupStem(Lower(a), Lower(b), format);
  }

  /** Lower-casing word characters gives word characters, none of them a separator. */
  lemma LowerWordChars(a: string)
    requires forall i :: 0 <= i < |a| ==> IsWord(a[i])
    ensures NoSeparators(Lower(a)) && |Lower(a)| == |a|
  {
  }

  lemma RegroupFour(a: string, b: string, c: string, d: string)
    ensures a + b + c + d == a + (b + (c + d))
  {
  }

  lemma RegroupStem(a: string, b: string, format: string)
    ensures a + ("_" + (b + "_")) + ("." + format) == a + "_" + b + "_." + format
  {
  }

  lemma SeparatedNameChars(a: string, sep1: string, b: string, sep2: string)
    requires forall i :: 0 <= i < |a| ==> IsWord(a[i])
    requires forall i :: 0 <= i < |b| ==> IsWord(b[i])
    requires 'V' !in a && 'V' !in b
    requires AllSeparators(sep1) && AllSeparators(sep2)
    ensures var name := a + (sep1 + (b + sep2));
      'V' !in name && forall i :: 0 <= i < |name| ==> IsWord(name[i]) || IsSeparator(name[i])
  {
    var name := a + (sep1 + (b + sep2));
    assert forall i :: 0 <= i < |name| ==> name[i] in a || name[i] in sep1 || name[i] in b || name[i] in sep2;
  }

  /** Lower-casing leaves separators alone. */
  lemma LowerSeparatedName(a: string, sep1: string, b: string, sep2: string)
    requires AllSeparators(sep1) && AllSeparators(sep2)
    ensures Lower(a + (sep1 + (b + sep2))) == Lower(a) + (sep1 + (Lower(b) + sep2))
  {
    LowerSeparators(sep1);
    LowerSeparators(sep2);
    LowerAppend(b, sep2);
    LowerAppend(sep1, b + sep2);
    LowerAppend(a, sep1 + (b + sep2));
  }

  lemma LowerSeparators(sep: string)
    requires AllSeparators(sep)
    ensures Lower(sep) == sep
  {
    assert forall i :: 0 <= i < |sep| ==> Lower(sep)[i] == sep[i];
  }
}
