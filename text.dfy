/** The Python string operations the core relies on (`lower`, `capitalize`, `replace`,
    `removesuffix`, two `re.sub` calls and `str` of a page number), over ASCII. */
module Text {

  /** Concatenation is associative. */
  lemma ConcatAssoc<T>(a: seq<T>, b: seq<T>, c: seq<T>)
    ensures a + b + c == a + (b + c)
  {
  }

  predicate IsDigit(c: char) { '0' <= c <= '9' }
  predicate IsUpper(c: char) { 'A' <= c <= 'Z' }
  predicate IsLower(c: char) { 'a' <= c <= 'z' }

  /** The regular-expression class `\s` on ASCII characters: what `str.isspace` accepts, the
      file, group, record and unit separators U+001C to U+001F included. */
  predicate IsSpace(c: char) {
    c == ' ' || c == '\t' || c == '\n' || c == '\r' || c == '\U{000B}' || c == '\U{000C}' ||
    ('\U{001C}' <= c <= '\U{001F}')
  }

  /** The regular-expression class `\w`, restricted to ASCII. */
  predicate IsWord(c: char) { IsUpper(c) || IsLower(c) || IsDigit(c) || c == '_' }

  /** The class `[-\s]` whose runs `get_export_filename` turns into one underscore. */
  predicate IsSeparator(c: char) { c == '-' || IsSpace(c) }

  predicate NoSeparators(s: string) { forall i :: 0 <= i < |s| ==> !IsSeparator(s[i]) }

  predicate AllSeparators(s: string) { forall i :: 0 <= i < |s| ==> IsSeparator(s[i]) }

  function LowerChar(c: char): (r: char)
    ensures !IsUpper(r)
    ensures IsUpper(c) ==> IsLower(r)
    ensures !IsUpper(c) ==> r == c
  {
    if IsUpper(c) then (c as int + 32) as char else c
  }

  function UpperChar(c: char): (r: char)
    ensures !IsLower(r)
    ensures IsLower(c) ==> IsUpper(r)
    ensures !IsLower(c) ==> r == c
  {
    if IsLower(c) then (c as int - 32) as char else c
  }

  /** `str.lower()`. */
  function Lower(s: string): (r: string)
    ensures |r| == |s|
    ensures forall i :: 0 <= i < |s| ==> r[i] == LowerChar(s[i])
  {
    if s == [] then [] else [LowerChar(s[0])] + Lower(s[1..])
  }

  /** Lower-casing works character by character, so it distributes over concatenation. */
  lemma LowerAppend(a: string, b: string)
    ensures Lower(a + b) == Lower(a) + Lower(b)
  {
    assert forall i :: 0 <= i < |a + b| ==> Lower(a + b)[i] == (Lower(a) + Lower(b))[i];
  }

  /** `str.capitalize()`: the first character upper-cased and every other one lower-cased. */
  function Capitalize(s: string): (r: string)
    ensures |r| == |s|
    ensures |s| > 0 ==> r[0] == UpperChar(s[0])
    ensures forall i :: 1 <= i < |s| ==> r[i] == LowerChar(s[i])
  {
    if s == [] then [] else [UpperChar(s[0])] + Lower(s[1..])
  }

  /** `str.replace(from, to)` for single characters. */
  function ReplaceChar(s: string, from: char, to: char): (r: string)
    ensures |r| == |s|
    ensures forall i :: 0 <= i < |s| ==> r[i] == (if s[i] == from then to else s[i])
  {
    if s == [] then [] else [if s[0] == from then to else s[0]] + ReplaceChar(s[1..], from, to)
  }

  predicate EndsWith(s: string, suffix: string) {
    |suffix| <= |s| && s[|s| - |suffix|..] == suffix
  }

  /** `str.removesuffix(suffix)`: one trailing copy of `suffix` is dropped, if there is one. */
  function RemoveSuffix(s: string, suffix: string): (r: string)
    ensures EndsWith(s, suffix) ==> r + suffix == s
    ensures !EndsWith(s, suffix) ==> r == s
  {
    if EndsWith(s, suffix) then s[..|s| - |suffix|] else s
  }

  /** `pattern` starts at index `i` of `s`. */
  predicate OccursAt(s: string, pattern: string, i: int) {
    0 <= i && i + |pattern| <= |s| && s[i..i + |pattern|] == pattern
  }

  /** `s.replace(pattern, "")`: every occurrence met scanning from the left is deleted. */
  function RemoveAll(s: string, pattern: string): (r: string)
    requires |pattern| > 0
    ensures |r| <= |s|
    ensures forall c :: c in r ==> c in s
    ensures (forall i :: !OccursAt(s, pattern, i)) ==> r == s
    decreases |s|
  {
    if |s| < |pattern| then s
    else if s[..|pattern|] == pattern then
      assert OccursAt(s, pattern, 0);
      RemoveAll(s[|pattern|..], pattern)
    else
      assert forall i :: OccursAt(s[1..], pattern, i) ==> OccursAt(s, pattern, i + 1);
      [s[0]] + RemoveAll(s[1..], pattern)
  }

  /** An occurrence at the front is deleted and the scan goes on after it. */
  lemma RemoveAllMatch(p: string, s: string)
    requires |p| > 0
    ensures RemoveAll(p + s, p) == RemoveAll(s, p)
  {
    assert (p + s)[..|p|] == p;
    assert (p + s)[|p|..] == s;
  }

  /** A character that does not start an occurrence is kept and the scan goes on after it. */
  lemma RemoveAllNoMatch(c: char, s: string, p: string)
    requires |p| > 0 && !OccursAt([c] + s, p, 0)
    ensures RemoveAll([c] + s, p) == [c] + RemoveAll(s, p)
  {
    assert ([c] + s)[1..] == s;
  }

  /** A text in which the pattern's first character never occurs, followed by the pattern, loses
      exactly that trailing occurrence. */
  lemma {:induction false} RemoveAllTrailing(s: string, p: string)
    requires |p| > 0 && p[0] !in s
    ensures RemoveAll(s + p, p) == s
  {
    if s == [] {
      assert [] + p == p + [];
      RemoveAllMatch(p, []);
    } else {
      assert s + p == [s[0]] + (s[1..] + p);
      assert !OccursAt(s + p, p, 0);
      RemoveAllNoMatch(s[0], s[1..] + p, p);
      RemoveAllTrailing(s[1..], p);
    }
  }

  /** `re.sub(r"[^\w\s-]", "", s)`: keeps word characters, white space and hyphens. */
  function KeepFilenameChars(s: string): (r: string)
    ensures |r| <= |s|
    ensures forall c :: c in r ==> c in s && (IsWord(c) || IsSeparator(c))
    ensures (forall i :: 0 <= i < |s| ==> IsWord(s[i]) || IsSeparator(s[i])) ==> r == s
  {
    if s == [] then []
    else (if IsWord(s[0]) || IsSeparator(s[0]) then [s[0]] else []) + KeepFilenameChars(s[1..])
  }

  /** The first substitution works character by character: it distributes over concatenation
      and keeps a character exactly when it is a word character, white space or a hyphen. */
  lemma {:induction false} KeepFilenameCharsAppend(a: string, b: string)
    ensures KeepFilenameChars(a + b) == KeepFilenameChars(a) + KeepFilenameChars(b)
  {
    if a != [] {
      assert (a + b)[0] == a[0] && (a + b)[1..] == a[1..] + b;
      KeepFilenameCharsAppend(a[1..], b);
    } else {
      assert a + b == b;
    }
  }

  lemma KeepFilenameCharsChar(c: char)
    ensures KeepFilenameChars([c]) == if IsWord(c) || IsSeparator(c) then [c] else []
  {
    assert [c][1..] == [];
  }

  /** The suffix of `s` that follows its leading run of separators. */
  function DropSeparators(s: string): (r: string)
    ensures |r| <= |s| && r == s[|s| - |r|..]
    ensures r == [] || !IsSeparator(r[0])
    ensures |s| > 0 && IsSeparator(s[0]) ==> |r| < |s|
  {
    if s != [] && IsSeparator(s[0]) then DropSeparators(s[1..]) else s
  }

  /** `re.sub(r"[-\s]+", "_", s)`: each maximal run of separators becomes one underscore. */
  function CollapseSeparators(s: string): (r: string)
    ensures forall c :: c in r ==> !IsSeparator(c) && (c in s || c == '_')
    ensures NoSeparators(s) ==> r == s
    decreases |s|
  {
    if s == [] then []
    else if IsSeparator(s[0]) then
      var rest := DropSeparators(s);
      assert forall c :: c in rest ==> c in s;
      "_" + CollapseSeparators(rest)
    else [s[0]] + CollapseSeparators(s[1..])
  }

  /** A leading run of separators is skipped entirely. */
  lemma {:induction false} DropSeparatorsRun(run: string, s: string)
    requires AllSeparators(run)
    requires s == [] || !IsSeparator(s[0])
    ensures DropSeparators(run + s) == s
  {
    if run != [] {
      assert (run + s)[0] == run[0] && (run + s)[1..] == run[1..] + s;
      DropSeparatorsRun(run[1..], s);
    } else {
      assert run + s == s;
    }
  }

  /** A maximal run of separators, however long, becomes exactly one underscore. */
  lemma CollapseSeparatorsRun(run: string, s: string)
    requires |run| > 0 && AllSeparators(run)
    requires s == [] || !IsSeparator(s[0])
    ensures CollapseSeparators(run + s) == "_" + CollapseSeparators(s)
  {
    assert (run + s)[0] == run[0];
    DropSeparatorsRun(run, s);
  }

  /** Any other character is kept as it is. */
  lemma CollapseSeparatorsKeeps(c: char, s: string)
    requires !IsSeparator(c)
    ensures CollapseSeparators([c] + s) == [c] + CollapseSeparators(s)
  {
    assert ([c] + s)[1..] == s;
  }

  /** A stretch without separators is kept as it is, whatever follows it. */
  lemma {:induction false} CollapseSeparatorsKeepsPlain(a: string, s: string)
    requires NoSeparators(a)
    ensures CollapseSeparators(a + s) == a + CollapseSeparators(s)
  {
    if a != [] {
      var rest, t := a[1..], CollapseSeparators(s);
      assert [a[0]] + rest == a;
      ConcatAssoc([a[0]], rest, s);
      CollapseSeparatorsKeeps(a[0], rest + s);
      CollapseSeparatorsKeepsPlain(rest, s);
      ConcatAssoc([a[0]], rest, t);
    } else {
      assert a + s == s;
    }
  }

  /** A part without separators followed by a run of separators gives the part and one
      underscore. */
  lemma CollapseOneRun(b: string, sep: string)
    requires NoSeparators(b) && |sep| > 0 && AllSeparators(sep)
    ensures CollapseSeparators(b + sep) == b + "_"
  {
    CollapseSeparatorsKeepsPlain(b, sep);
    assert sep + [] == sep;
    CollapseSeparatorsRun(sep, []);
  }

  /** Two parts without separators, each followed by a run of separators, give the two parts
      each followed by one underscore. */
  lemma CollapseTwoRuns(a: string, sep1: string, b: string, sep2: string)
    requires NoSeparators(a) && NoSeparators(b) && |b| > 0
    requires |sep1| > 0 && AllSeparators(sep1) && |sep2| > 0 && AllSeparators(sep2)
    ensures CollapseSeparators(a + (sep1 + (b + sep2))) == a + ("_" + (b + "_"))
  {
    CollapseRunThenPart(sep1, b, sep2);
    CollapseSeparatorsKeepsPlain(a, sep1 + (b + sep2));
  }

  lemma CollapseRunThenPart(sep1: string, b: string, sep2: string)
    requires NoSeparators(b) && |b| > 0
    requires |sep1| > 0 && AllSeparators(sep1) && |sep2| > 0 && AllSeparators(sep2)
    ensures CollapseSeparators(sep1 + (b + sep2)) == "_" + (b + "_")
  {
    CollapseOneRun(b, sep2);
    assert (b + sep2)[0] == b[0];
    CollapseSeparatorsRun(sep1, b + sep2);
  }

  function DigitChar(d: nat): (c: char)
    requires d < 10
    ensures IsDigit(c)
  {
    ('0' as int + d) as char
  }

  function DigitValue(c: char): (d: nat)
    requires IsDigit(c)
    ensures d < 10 && DigitChar(d) == c
  {
    c as int - '0' as int
  }

  /** `str(n)` for a natural number: decimal digits without leading zeros. */
  function Decimal(n: nat): (r: string)
    ensures |r| > 0
    ensures forall i :: 0 <= i < |r| ==> IsDigit(r[i])
    ensures r[0] == '0' ==> n == 0
    decreases n
  {
    if n < 10 then [DigitChar(n)] else Decimal(n / 10) + [DigitChar(n % 10)]
  }

  /** The value of a string of decimal digits (Python's `int(s)` on such a string). */
  function ParseDecimal(s: string): nat
    requires forall i :: 0 <= i < |s| ==> IsDigit(s[i])
  {
    if s == [] then 0 else ParseDecimal(s[..|s| - 1]) * 10 + DigitValue(s[|s| - 1])
  }

  /** Reading back the page number written by `str` gives the number. */
  lemma {:induction false} DecimalRoundTrip(n: nat)
    ensures ParseDecimal(Decimal(n)) == n
    decreases n
  {
    var s := Decimal(n);
    if n < 10 {
      assert s[..|s| - 1] == [];
    } else {
      DecimalRoundTrip(n / 10);
      assert s[..|s| - 1] == Decimal(n / 10);
      assert DigitValue(s[|s| - 1]) == n % 10;
    }
  }
}
