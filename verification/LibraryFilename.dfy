/** The file name for the models of a library (`createFilenameForLibrary` in
    extensions/ql-vscode/src/model-editor/yaml.ts).

    Lower-casing and the class of white space are parameters: they are Unicode tables of the platform. */
module LibraryFilename {

  predicate IsAllowed(c: char) {
    'a' <= c <= 'z' || '0' <= c <= '9' || c == '.' || c == '-'
  }

  predicate IsDotOrHyphen(c: char) {
    c == '.' || c == '-'
  }

  // ---------------------------------------------------------------------------
  // The replacements

  function DropWhile(s: string, p: char -> bool): (r: string)
    ensures |r| <= |s|
  {
    if s != [] && p(s[0]) then DropWhile(s[1..], p) else s
  }

  /** Every run of spaces and underscores becomes one hyphen. */
  function HyphenateRuns(s: string, isSpace: char -> bool): string
    decreases |s|
  {
    if s == [] then []
    else if isSpace(s[0]) || s[0] == '_' then
      "-" + HyphenateRuns(DropWhile(s[1..], c => isSpace(c) || c == '_'), isSpace)
    else [s[0]] + HyphenateRuns(s[1..], isSpace)
  }

  function KeepAllowed(s: string): string {
    if s == [] then []
    else (if IsAllowed(s[0]) then [s[0]] else []) + KeepAllowed(s[1..])
  }

  function StripLeading(s: string): string {
    if s != [] && IsDotOrHyphen(s[0]) then StripLeading(s[1..]) else s
  }

  function StripTrailing(s: string): string {
    if s != [] && IsDotOrHyphen(s[|s| - 1]) then StripTrailing(s[..|s| - 1]) else s
  }

  /** Every run of `c` becomes one `c`. */
  function Collapse(s: string, c: char): string {
    if |s| < 2 then s
    else if s[0] == c && s[1] == c then Collapse(s[1..], c)
    else [s[0]] + Collapse(s[1..], c)
  }

  /** The middle part of the file name. */
  function NameFor(library: string, lower: string -> string, isSpace: char -> bool): string {
    var allowed := KeepAllowed(HyphenateRuns(lower(library), isSpace));
    Collapse(Collapse(StripTrailing(StripLeading(allowed)), '-'), '.')
  }

  /** `createFilenameForLibrary` */
  method CreateFilenameForLibrary(library: string, prefix: string, suffix: string,
                                  lower: string -> string, isSpace: char -> bool) returns (filename: string)
    ensures filename == prefix + NameFor(library, lower, isSpace) + suffix + ".yml"
    ensures IsNormal(NameFor(library, lower, isSpace))
  {
    NameIsNormal(library, lower, isSpace);
    var libraryName := lower(library);
    libraryName := HyphenateRuns(libraryName, isSpace);
    libraryName := KeepAllowed(libraryName);
    libraryName := StripTrailing(StripLeading(libraryName));
    libraryName := Collapse(libraryName, '-');
    libraryName := Collapse(libraryName, '.');
    filename := prefix + libraryName + suffix + ".yml";
  }

  // ---------------------------------------------------------------------------
  // The normal form

  predicate AllAllowed(s: string) {
    forall i | 0 <= i < |s| :: IsAllowed(s[i])
  }

  predicate BareEnds(s: string) {
    s != [] ==> !IsDotOrHyphen(s[0]) && !IsDotOrHyphen(s[|s| - 1])
  }

  predicate NoDouble(s: string, c: char) {
    forall i | 0 <= i < |s| - 1 :: !(s[i] == c && s[i + 1] == c)
  }

  /** Only allowed characters, no dot or hyphen at either end, no doubled dot and no doubled hyphen. */
  predicate IsNormal(s: string) {
    AllAllowed(s) && BareEnds(s) && NoDouble(s, '-') && NoDouble(s, '.')
  }

  lemma {:induction false} KeptAreAllowed(s: string)
    ensures AllAllowed(KeepAllowed(s))
  {
    if s != [] {
      KeptAreAllowed(s[1..]);
    }
  }

  lemma {:induction false} StrippedLeading(s: string)
    requires AllAllowed(s)
    ensures AllAllowed(StripLeading(s)) && (StripLeading(s) != [] ==> !IsDotOrHyphen(StripLeading(s)[0]))
  {
    if s != [] && IsDotOrHyphen(s[0]) {
      StrippedLeading(s[1..]);
    }
  }

  lemma {:induction false} StrippedTrailing(s: string)
    requires AllAllowed(s) && (s != [] ==> !IsDotOrHyphen(s[0]))
    ensures AllAllowed(StripTrailing(s)) && BareEnds(StripTrailing(s))
  {
    if s != [] && IsDotOrHyphen(s[|s| - 1]) {
      StrippedTrailing(s[..|s| - 1]);
    }
  }

  /** Collapsing removes the doubles, keeps both ends, and does not bring other characters together. */
  lemma {:induction false} Collapsed(s: string, c: char, other: char)
    requires AllAllowed(s) && other != c
    ensures var r := Collapse(s, c);
      && AllAllowed(r) && NoDouble(r, c)
      && (NoDouble(s, other) ==> NoDouble(r, other))
      && (r == [] <==> s == [])
      && (s != [] ==> r[0] == s[0] && r[|r| - 1] == s[|s| - 1])
  {
    if |s| >= 2 {
      Collapsed(s[1..], c, other);
    }
  }

  /** The result is in normal form, whatever the library is called. */
  lemma NameIsNormal(library: string, lower: string -> string, isSpace: char -> bool)
    ensures IsNormal(NameFor(library, lower, isSpace))
  {
    hide KeepAllowed, StripLeading, StripTrailing, Collapse, AllAllowed, NoDouble;
    var hyphenated := HyphenateRuns(lower(library), isSpace);
    KeptAreAllowed(hyphenated);
    var allowed := KeepAllowed(hyphenated);
    StrippedLeading(allowed);
    StrippedTrailing(StripLeading(allowed));
    var stripped := StripTrailing(StripLeading(allowed));
    Collapsed(stripped, '-', '.');
    Collapsed(Collapse(stripped, '-'), '.', '-');
  }

  lemma {:induction false} NothingToHyphenate(s: string, isSpace: char -> bool)
    requires AllAllowed(s) && forall c | IsAllowed(c) :: !isSpace(c)
    ensures HyphenateRuns(s, isSpace) == s && KeepAllowed(s) == s
  {
    if s != [] {
      NothingToHyphenate(s[1..], isSpace);
      assert s == [s[0]] + s[1..];
    }
  }

  lemma {:induction false} NothingToCollapse(s: string, c: char)
    requires NoDouble(s, c)
    ensures Collapse(s, c) == s
  {
    if |s| >= 2 {
      NothingToCollapse(s[1..], c);
      assert s == [s[0]] + s[1..];
    }
  }

  /** Names in normal form stay as they are, so the pipeline is idempotent, and the names it produces are exactly
      those in normal form. */
  lemma NormalIsFixed(name: string, lower: string -> string, isSpace: char -> bool)
    requires forall s | AllAllowed(s) :: lower(s) == s
    requires forall c | IsAllowed(c) :: !isSpace(c)
    ensures IsNormal(name) <==> NameFor(name, lower, isSpace) == name
  {
    hide KeepAllowed, HyphenateRuns, Collapse, NoDouble;
    NameIsNormal(name, lower, isSpace);
    if IsNormal(name) {
      NothingToHyphenate(name, isSpace);
      NothingToCollapse(name, '-');
      NothingToCollapse(name, '.');
    }
  }

  lemma NameIsIdempotent(library: string, lower: string -> string, isSpace: char -> bool)
    requires forall s | AllAllowed(s) :: lower(s) == s
    requires forall c | IsAllowed(c) :: !isSpace(c)
    ensures NameFor(NameFor(library, lower, isSpace), lower, isSpace) == NameFor(library, lower, isSpace)
  {
    NameIsNormal(library, lower, isSpace);
    NormalIsFixed(NameFor(library, lower, isSpace), lower, isSpace);
  }

  // ---------------------------------------------------------------------------
  // What a name keeps

  /** A letter from a to z, or a digit */
  predicate IsLetter(c: char) {
    'a' <= c <= 'z' || '0' <= c <= '9'
  }

  function Letters(s: string): string {
    if s == [] then [] else (if IsLetter(s[0]) then [s[0]] else []) + Letters(s[1..])
  }

  predicate Separates(c: char, isSpace: char -> bool) {
    isSpace(c) || c == '_'
  }

  /** One scan that remembers whether the character before was a space or an underscore */
  function Hyphenated(s: string, isSpace: char -> bool, after: bool): string {
    if s == [] then []
    else if Separates(s[0], isSpace) then (if after then [] else ['-']) + Hyphenated(s[1..], isSpace, true)
    else [s[0]] + Hyphenated(s[1..], isSpace, false)
  }

  lemma {:induction false} HyphenatedAfter(s: string, isSpace: char -> bool)
    ensures var d := DropWhile(s, c => isSpace(c) || c == '_');
      Hyphenated(s, isSpace, true) == Hyphenated(d, isSpace, false)
      && (d != [] ==> !Separates(d[0], isSpace))
  {
    if s != [] && Separates(s[0], isSpace) {
      HyphenatedAfter(s[1..], isSpace);
    }
  }

  /** Replacing runs is that scan. */
  lemma {:induction false} HyphenationIsOneScan(s: string, isSpace: char -> bool)
    ensures HyphenateRuns(s, isSpace) == Hyphenated(s, isSpace, false)
    decreases |s|
  {
    if s != [] {
      if Separates(s[0], isSpace) {
        HyphenatedAfter(s[1..], isSpace);
        HyphenationIsOneScan(DropWhile(s[1..], c => isSpace(c) || c == '_'), isSpace);
      } else {
        HyphenationIsOneScan(s[1..], isSpace);
      }
    }
  }

  /** A dot or hyphen goes if the same character follows. */
  function Squeezed(s: string): string {
    if |s| < 2 then s
    else if s[0] == s[1] && (s[0] == '-' || s[0] == '.') then Squeezed(s[1..])
    else [s[0]] + Squeezed(s[1..])
  }

  lemma {:induction false} CollapseHead(s: string, c: char)
    ensures s != [] ==> Collapse(s, c) != [] && Collapse(s, c)[0] == s[0]
    ensures s == [] ==> Collapse(s, c) == []
  {
    if |s| >= 2 && s[0] == c && s[1] == c {
      CollapseHead(s[1..], c);
    }
  }

  /** The two replacements of doubles do not disturb each other: together they are this one scan. */
  lemma {:induction false} CollapsesAreOneScan(s: string)
    ensures Collapse(Collapse(s, '-'), '.') == Squeezed(s)
  {
    if |s| >= 2 {
      CollapsesAreOneScan(s[1..]);
      CollapseHead(s[1..], '-');
      var rest := Collapse(s[1..], '-');
      if !(s[0] == '-' && s[1] == '-') {
        assert ([s[0]] + rest)[1..] == rest;
      }
    }
  }

  /** What is stripped: the dots and hyphens before the first and after the last other character. */
  lemma StripIs(s: string) returns (i: nat, j: nat)
    ensures i <= j <= |s| && StripTrailing(StripLeading(s)) == s[i..j]
    ensures forall k | 0 <= k < i || j <= k < |s| :: s[k] == '.' || s[k] == '-'
    ensures i < j ==> s[i] != '.' && s[i] != '-' && s[j - 1] != '.' && s[j - 1] != '-'
  {
    i := StripLeadingIs(s);
    var m := StripTrailingIs(s[i..]);
    j := i + m;
    assert s[i..][..m] == s[i..j];
    forall k | j <= k < |s|
      ensures s[k] == '.' || s[k] == '-'
    {
      assert s[i..][k - i] == s[k];
    }
    if i < j {
      assert s[i..][0] == s[i] && s[i..][m - 1] == s[j - 1];
    }
  }

  lemma {:induction false} StripLeadingIs(s: string) returns (i: nat)
    ensures i <= |s| && StripLeading(s) == s[i..] && forall k | 0 <= k < i :: s[k] == '.' || s[k] == '-'
    ensures i < |s| ==> s[i] != '.' && s[i] != '-'
  {
    i := 0;
    if s != [] && IsDotOrHyphen(s[0]) {
      var m := StripLeadingIs(s[1..]);
      i := m + 1;
      forall k | 0 <= k < i
        ensures s[k] == '.' || s[k] == '-'
      {
        assert k > 0 ==> s[k] == s[1..][k - 1];
      }
    }
  }

  lemma {:induction false} StripTrailingIs(s: string) returns (j: nat)
    ensures j <= |s| && StripTrailing(s) == s[..j] && forall k | j <= k < |s| :: s[k] == '.' || s[k] == '-'
    ensures j > 0 ==> s[j - 1] != '.' && s[j - 1] != '-'
    decreases |s|
  {
    j := |s|;
    if s != [] && IsDotOrHyphen(s[|s| - 1]) {
      j := StripTrailingIs(s[..|s| - 1]);
    }
  }

  /** What is allowed, character by character. */
  lemma {:induction false} KeepAllowedIs(s: string, c: char)
    ensures KeepAllowed(s + [c]) ==
            KeepAllowed(s) + if IsLetter(c) || c == '.' || c == '-' then [c] else []
  {
    if s != [] {
      assert (s + [c])[1..] == s[1..] + [c];
      KeepAllowedIs(s[1..], c);
    }
  }

  lemma LettersOfFirst(c: char, s: string)
    ensures Letters([c] + s) == (if IsLetter(c) then [c] else []) + Letters(s)
  {
    assert ([c] + s)[1..] == s;
  }

  lemma {:induction false} LettersSplit(a: string, b: string)
    ensures Letters(a + b) == Letters(a) + Letters(b)
  {
    hide IsLetter;
    if a == [] {
      assert a + b == b;
    } else {
      LettersSplit(a[1..], b);
      LettersOfFirst(a[0], a[1..]);
      LettersOfFirst(a[0], a[1..] + b);
      assert a == [a[0]] + a[1..];
      assert a + b == [a[0]] + (a[1..] + b);
    }
  }

  lemma {:induction false} HyphenationKeepsLetters(s: string, isSpace: char -> bool, after: bool)
    requires forall c | IsLetter(c) :: !isSpace(c)
    ensures Letters(Hyphenated(s, isSpace, after)) == Letters(s)
  {
    if s != [] {
      var next := Separates(s[0], isSpace);
      HyphenationKeepsLetters(s[1..], isSpace, next);
      LettersSplit(if !next then [s[0]] else if after then [] else ['-'], Hyphenated(s[1..], isSpace, next));
      LettersSplit([s[0]], s[1..]);
      assert s == [s[0]] + s[1..];
      LetterOf('-');
      LetterOf(s[0]);
    }
  }

  lemma LetterOf(c: char)
    ensures Letters([c]) == if IsLetter(c) then [c] else []
  {
    assert [c][1..] == [];
  }

  lemma {:induction false} AllowedKeepsLetters(s: string)
    ensures Letters(KeepAllowed(s)) == Letters(s)
  {
    if s != [] {
      AllowedKeepsLetters(s[1..]);
      LettersSplit(if IsAllowed(s[0]) then [s[0]] else [], KeepAllowed(s[1..]));
      LetterOf(s[0]);
    }
  }

  lemma {:induction false} NoLetters(s: string)
    requires forall k | 0 <= k < |s| :: s[k] == '.' || s[k] == '-'
    ensures Letters(s) == []
  {
    if s != [] {
      NoLetters(s[1..]);
    }
  }

  lemma {:induction false} SqueezeKeepsLetters(s: string)
    ensures Letters(Squeezed(s)) == Letters(s)
  {
    if |s| >= 2 {
      SqueezeKeepsLetters(s[1..]);
      if !(s[0] == s[1] && (s[0] == '-' || s[0] == '.')) {
        assert ([s[0]] + Squeezed(s[1..]))[1..] == Squeezed(s[1..]);
      }
    }
  }

  /** The letters and digits of the library in lower case are all kept, in order, and none is added; what else there is
      in the name are single dots and hyphens between them (`NameIsNormal`). */
  lemma NameKeepsLetters(library: string, lower: string -> string, isSpace: char -> bool)
    requires forall c | IsLetter(c) :: !isSpace(c)
    ensures Letters(NameFor(library, lower, isSpace)) == Letters(lower(library))
  {
    hide Letters, HyphenateRuns, KeepAllowed, StripLeading, StripTrailing, Collapse;
    var s := lower(library);
    HyphenationIsOneScan(s, isSpace);
    HyphenationKeepsLetters(s, isSpace, false);
    var a := KeepAllowed(HyphenateRuns(s, isSpace));
    AllowedKeepsLetters(HyphenateRuns(s, isSpace));
    var i, j := StripIs(a);
    ThreeParts(a, i, j);
    LettersSplit(a[..i], a[i..j]);
    LettersSplit(a[..i] + a[i..j], a[j..]);
    NoLetters(a[..i]);
    NoLetters(a[j..]);
    CollapsesAreOneScan(a[i..j]);
    SqueezeKeepsLetters(a[i..j]);
  }

  lemma ThreeParts(s: string, i: nat, j: nat)
    requires i <= j <= |s|
    ensures s == s[..i] + s[i..j] + s[j..]
  {
  }
}
