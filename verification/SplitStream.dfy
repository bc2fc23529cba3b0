/** Splitting a text stream into lines (extensions/ql-vscode/src/common/split-stream.ts).

    `IsSplit` says declaratively what the lines of a text are.  `Scan` computes them from the whole text.
    `SplitBuffer` receives the text in chunks and may be polled at any time; its invariant `Agrees` says
    that what it has emitted is right for every text the stream can still turn out to be. */
module SplitStream {
  import Groups
  import opened Wrappers

  // ---------------------------------------------------------------------------
  // The lines of a whole text

  predicate NonEmptyAll(separators: seq<string>) {
    forall w | w in separators :: w != ""
  }

  predicate StartsWith(s: string, w: string, i: nat) {
    i + |w| <= |s| && s[i..i + |w|] == w
  }

  /** The first separator, in list order, that stands at position `i`. */
  function FirstSeparator(s: string, i: nat, separators: seq<string>): (r: Option<string>)
    ensures r.Some? ==> r.value in separators && StartsWith(s, r.value, i)
  {
    if separators == [] then None
    else if StartsWith(s, separators[0], i) then Some(separators[0])
    else FirstSeparator(s, i, separators[1..])
  }

  /** The lines of `s` from `start` on, when no separator stands between `start` and `i`. */
  function Scan(s: string, start: nat, i: nat, separators: seq<string>): seq<string>
    requires NonEmptyAll(separators) && start <= |s| && start <= i
    decreases |s| - i
  {
    if i >= |s| then if start < |s| then [s[start..]] else []
    else
      match FirstSeparator(s, i, separators)
      case None => Scan(s, start, i + 1, separators)
      case Some(w) => [s[start..i]] + Scan(s, i + |w|, i + |w|, separators)
  }

  /** Splitting a text in one go. */
  function Split(s: string, separators: seq<string>): seq<string>
    requires NonEmptyAll(separators)
  {
    Scan(s, 0, 0, separators)
  }

  /** `w` stands at `i`, and no separator earlier in the list does. */
  ghost predicate ChosenAt(s: string, i: nat, separators: seq<string>, w: string) {
    exists j :: 0 <= j < |separators| && separators[j] == w && StartsWith(s, w, i) &&
                forall k | 0 <= k < j :: !StartsWith(s, separators[k], i)
  }

  ghost predicate NoneIn(s: string, from: nat, to: nat, separators: seq<string>) {
    forall k: nat, w | from <= k < to && w in separators :: !StartsWith(s, w, k)
  }

  /** The lines of `s` from `start` on, with the separators that end them: no separator begins inside a line,
      each line is ended by the first applicable separator of the list, and only the last line may be ended
      by the end of the text instead, in which case it is not empty. */
  ghost predicate IsSplit(s: string, start: nat, lines: seq<string>, ends: seq<string>, separators: seq<string>)
    decreases |lines|
  {
    if start >= |s| || lines == [] then start == |s| && lines == [] && ends == []
    else
      var e := start + |lines[0]|;
      && e <= |s| && lines[0] == s[start..e]
      && NoneIn(s, start, e, separators)
      && if e == |s| then lines == [lines[0]] && ends == []
         else ends != [] && ChosenAt(s, e, separators, ends[0]) &&
              IsSplit(s, e + |ends[0]|, lines[1..], ends[1..], separators)
  }

  lemma ChosenInRest(s: string, i: nat, separators: seq<string>, w: string)
    requires separators != [] && ChosenAt(s, i, separators[1..], w) && !StartsWith(s, separators[0], i)
    ensures ChosenAt(s, i, separators, w)
  {
    hide StartsWith;
    var rest := separators[1..];
    var j :| 0 <= j < |rest| && rest[j] == w && StartsWith(s, w, i) &&
             forall k | 0 <= k < j :: !StartsWith(s, rest[k], i);
    assert separators[j + 1] == w;
    assert forall k | 1 <= k < j + 1 :: separators[k] == rest[k - 1];
  }

  lemma RestIsChosen(s: string, i: nat, separators: seq<string>, w: string)
    requires separators != [] && ChosenAt(s, i, separators, w) && !StartsWith(s, separators[0], i)
    ensures ChosenAt(s, i, separators[1..], w)
  {
    hide StartsWith;
    var rest := separators[1..];
    var j :| 0 <= j < |separators| && separators[j] == w && StartsWith(s, w, i) &&
             forall k | 0 <= k < j :: !StartsWith(s, separators[k], i);
    assert rest[j - 1] == w;
    assert forall k | 0 <= k < j - 1 :: rest[k] == separators[k + 1];
  }

  lemma FirstIsChosen(s: string, i: nat, separators: seq<string>, w: string)
    requires separators != [] && StartsWith(s, separators[0], i)
    ensures ChosenAt(s, i, separators, w) <==> separators[0] == w
  {
    hide StartsWith;
    if separators[0] == w {
      assert separators[0] == w;
    }
  }

  lemma {:induction false} FirstSeparatorIsChosen(s: string, i: nat, separators: seq<string>, w: string)
    ensures FirstSeparator(s, i, separators) == Some(w) <==> ChosenAt(s, i, separators, w)
  {
    hide ChosenAt, StartsWith;
    if separators == [] {
      NothingChosen(s, i, w);
    } else if StartsWith(s, separators[0], i) {
      FirstIsChosen(s, i, separators, w);
    } else {
      FirstSeparatorIsChosen(s, i, separators[1..], w);
      if ChosenAt(s, i, separators[1..], w) {
        ChosenInRest(s, i, separators, w);
      }
      if ChosenAt(s, i, separators, w) {
        RestIsChosen(s, i, separators, w);
      }
    }
  }

  lemma NothingChosen(s: string, i: nat, w: string)
    ensures !ChosenAt(s, i, [], w)
  {
  }

  lemma {:induction false} NoSeparatorAt(s: string, i: nat, separators: seq<string>)
    ensures FirstSeparator(s, i, separators) == None <==> forall w | w in separators :: !StartsWith(s, w, i)
  {
    if separators != [] {
      NoSeparatorAt(s, i, separators[1..]);
      assert forall w :: w in separators <==> w == separators[0] || w in separators[1..];
    }
  }

  /** Where the line that starts at `start` ends, searching from `i`. */
  function LineEnd(s: string, i: nat, separators: seq<string>): (e: nat)
    requires i <= |s|
    ensures i <= e <= |s|
    decreases |s| - i
  {
    if i == |s| || FirstSeparator(s, i, separators).Some? then i else LineEnd(s, i + 1, separators)
  }

  lemma {:induction false} LineEndIsNext(s: string, from: nat, i: nat, e: nat, separators: seq<string>)
    requires from <= i <= e <= |s| && NoneIn(s, from, i, separators)
    ensures e == LineEnd(s, i, separators) <==>
            NoneIn(s, from, e, separators) && (e == |s| || FirstSeparator(s, e, separators).Some?)
    decreases |s| - i
  {
    if i < |s| {
      NoSeparatorAt(s, i, separators);
      if FirstSeparator(s, i, separators) == None && i < e {
        forall k: nat, w | from <= k < i + 1 && w in separators
          ensures !StartsWith(s, w, k)
        {
          if k < i {
            assert NoneIn(s, from, i, separators);
          }
        }
        LineEndIsNext(s, from, i + 1, e, separators);
      }
    }
  }

  lemma {:induction false} ScanToLineEnd(s: string, start: nat, i: nat, separators: seq<string>)
    requires NonEmptyAll(separators) && start <= i <= |s|
    ensures Scan(s, start, i, separators) == Scan(s, start, LineEnd(s, i, separators), separators)
    decreases |s| - i
  {
    if i < |s| && FirstSeparator(s, i, separators) == None {
      ScanToLineEnd(s, start, i + 1, separators);
    }
  }

  /** `Scan` computes the lines that the declarative description demands, and nothing else satisfies it. */
  lemma {:induction false} SplitIsUnique(s: string, start: nat, lines: seq<string>, ends: seq<string>,
                                         separators: seq<string>)
    requires NonEmptyAll(separators) && start <= |s| && IsSplit(s, start, lines, ends, separators)
    ensures lines == Scan(s, start, start, separators)
    decreases |lines|
  {
    hide FirstSeparator, StartsWith;
    if lines != [] && start < |s| {
      var e := start + |lines[0]|;
      if e < |s| {
        FirstSeparatorIsChosen(s, e, separators, ends[0]);
        SplitIsUnique(s, e + |ends[0]|, lines[1..], ends[1..], separators);
        assert lines == [lines[0]] + lines[1..];
      }
      LineEndIsNext(s, start, start, e, separators);
      ScanToLineEnd(s, start, start, separators);
      assert s[start..] == s[start..|s|];
    }
  }

  /** The first line of the rest of a text, and what comes after it */
  lemma ScanOneLine(s: string, start: nat, separators: seq<string>)
    requires NonEmptyAll(separators) && start < |s|
    ensures var e, lines := LineEnd(s, start, separators), Scan(s, start, start, separators);
      && NoneIn(s, start, e, separators)
      && (e == |s| ==> lines == [s[start..e]])
      && (e < |s| ==> FirstSeparator(s, e, separators).Some?)
      && (e < |s| ==> var w := FirstSeparator(s, e, separators).value;
            e + |w| <= |s| && ChosenAt(s, e, separators, w) && w != "" &&
            lines == [s[start..e]] + Scan(s, e + |w|, e + |w|, separators))
  {
    hide StartsWith, FirstSeparator, ChosenAt, LineEnd, NoneIn;
    var e := LineEnd(s, start, separators);
    NothingBefore(s, start, separators);
    LineEndIsNext(s, start, start, e, separators);
    ScanToLineEnd(s, start, start, separators);
    assert s[start..] == s[start..|s|];
    if e < |s| {
      var w := FirstSeparator(s, e, separators).value;
      FirstSeparatorIsChosen(s, e, separators, w);
      SeparatorFits(s, e, separators);
    }
  }

  lemma NothingBefore(s: string, i: nat, separators: seq<string>)
    ensures NoneIn(s, i, i, separators)
  {
  }

  /** The separators that end the lines. */
  lemma {:induction false} SplitExists(s: string, start: nat, separators: seq<string>) returns (ends: seq<string>)
    requires NonEmptyAll(separators) && start <= |s|
    ensures IsSplit(s, start, Scan(s, start, start, separators), ends, separators)
    decreases |s| - start
  {
    hide StartsWith, FirstSeparator, ChosenAt, LineEnd, NoneIn, NonEmptyAll;
    ends := [];
    if start < |s| {
      hide Scan;
      ScanOneLine(s, start, separators);
      var e, lines := LineEnd(s, start, separators), Scan(s, start, start, separators);
      if e < |s| {
        var w := FirstSeparator(s, e, separators).value;
        var rest := SplitExists(s, e + |w|, separators);
        ends := [w] + rest;
        assert ends[1..] == rest && lines[1..] == Scan(s, e + |w|, e + |w|, separators);
      }
    }
  }

  lemma SeparatorFits(s: string, i: nat, separators: seq<string>)
    requires FirstSeparator(s, i, separators).Some?
    ensures i + |FirstSeparator(s, i, separators).value| <= |s|
  {
  }

  /** Lines and separators, put together again. */
  function Interleave(lines: seq<string>, ends: seq<string>): string {
    if lines == [] then ""
    else lines[0] + (if ends == [] then "" else ends[0]) + Interleave(lines[1..], if ends == [] then [] else ends[1..])
  }

  lemma ChosenStands(s: string, i: nat, separators: seq<string>, w: string)
    requires ChosenAt(s, i, separators, w)
    ensures i + |w| <= |s| && s[i..i + |w|] == w
  {
  }

  lemma ThreeParts(s: string, a: nat, b: nat, c: nat)
    requires a <= b <= c <= |s|
    ensures s[a..] == s[a..b] + s[b..c] + s[c..]
  {
  }

  /** The lines of a text are exactly those that the declarative description demands of it, from its beginning on. */
  lemma SplitIs(s: string, lines: seq<string>, separators: seq<string>)
    requires NonEmptyAll(separators)
    ensures lines == Split(s, separators) <==> exists ends :: IsSplit(s, 0, lines, ends, separators)
  {
    var ends := SplitExists(s, 0, separators);
    forall ends | IsSplit(s, 0, lines, ends, separators) ensures lines == Split(s, separators) {
      SplitIsUnique(s, 0, lines, ends, separators);
    }
  }

  /** Nothing of the text is lost or invented. */
  lemma {:induction false} SplitRejoins(s: string, start: nat, lines: seq<string>, ends: seq<string>,
                                        separators: seq<string>)
    requires start <= |s| && IsSplit(s, start, lines, ends, separators)
    ensures Interleave(lines, ends) == s[start..]
    decreases |lines|
  {
    hide NoneIn, ChosenAt;
    if lines != [] && start < |s| {
      var e := start + |lines[0]|;
      if e < |s| {
        ChosenStands(s, e, separators, ends[0]);
        var e' := e + |ends[0]|;
        SplitRejoins(s, e', lines[1..], ends[1..], separators);
        ThreeParts(s, start, e, e');
      } else {
        assert lines[1..] == [];
      }
    }
  }

  // ---------------------------------------------------------------------------
  // Splitting a text that is still arriving

  function MaxLength(separators: seq<string>): (n: nat)
    ensures forall w | w in separators :: |w| <= n
  {
    if separators == [] then 0
    else
      var n := MaxLength(separators[1..]);
      if |separators[0]| > n then |separators[0]| else n
  }

  /** Away from the end of the received text, later input cannot change which separator is found. */
  lemma {:induction false} SeparatorIsLocal(s: string, f: string, i: nat, separators: seq<string>, n: nat)
    requires f == "" || (i + n <= |s| && forall w | w in separators :: |w| <= n)
    ensures FirstSeparator(s + f, i, separators) == FirstSeparator(s, i, separators)
  {
    if f == "" {
      assert s + f == s;
    } else if separators != [] {
      var w := separators[0];
      assert w in separators;
      assert (s + f)[i..i + |w|] == s[i..i + |w|];
      SeparatorIsLocal(s, f, i, separators[1..], n);
    }
  }

  /** After `text`, having emitted `emitted` and being about to search at `i` for the end of the line that
      starts at `start`, the emitted lines are right whatever input follows. */
  ghost predicate Consistent(text: string, ended: bool, emitted: seq<string>, start: nat, i: nat,
                             separators: seq<string>)
    requires NonEmptyAll(separators) && start <= |text| && start <= i
  {
    forall f | ended ==> f == "" ::
      Split(text + f, separators) == emitted + Scan(text + f, start, i, separators)
  }

  /** The search may move on from `i`: the whole of every separator has been received, or nothing follows. */
  predicate Searchable(text: string, ended: bool, i: nat, separators: seq<string>) {
    if ended then i < |text| else i + MaxLength(separators) <= |text|
  }

  lemma Advance(text: string, ended: bool, emitted: seq<string>, start: nat, i: nat, separators: seq<string>)
    requires NonEmptyAll(separators) && start <= |text| && start <= i
    requires Consistent(text, ended, emitted, start, i, separators)
    requires Searchable(text, ended, i, separators)
    requires FirstSeparator(text, i, separators) == None
    ensures Consistent(text, ended, emitted, start, i + 1, separators)
  {
    hide FirstSeparator, MaxLength;
    forall f | ended ==> f == ""
      ensures Split(text + f, separators) == emitted + Scan(text + f, start, i + 1, separators)
    {
      SeparatorIsLocal(text, f, i, separators, MaxLength(separators));
      assert Scan(text + f, start, i, separators) == Scan(text + f, start, i + 1, separators);
    }
  }

  lemma TakeLine(text: string, f: string, start: nat, i: nat, w: string, separators: seq<string>)
    requires NonEmptyAll(separators) && start <= i < |text + f| && i + |w| <= |text|
    requires FirstSeparator(text + f, i, separators) == Some(w)
    ensures Scan(text + f, start, i, separators) ==
            [text[start..i]] + Scan(text + f, i + |w|, i + |w|, separators)
  {
    hide FirstSeparator;
    assert (text + f)[start..i] == text[start..i];
  }

  lemma Emit(text: string, ended: bool, emitted: seq<string>, start: nat, i: nat, w: string, separators: seq<string>)
    requires NonEmptyAll(separators) && start <= |text| && start <= i
    requires Consistent(text, ended, emitted, start, i, separators)
    requires Searchable(text, ended, i, separators)
    requires FirstSeparator(text, i, separators) == Some(w) && i + |w| <= |text|
    ensures Consistent(text, ended, emitted + [text[start..i]], i + |w|, i + |w|, separators)
  {
    hide FirstSeparator, MaxLength, Split, Scan;
    forall f | ended ==> f == ""
      ensures Split(text + f, separators) ==
              emitted + [text[start..i]] + Scan(text + f, i + |w|, i + |w|, separators)
    {
      SeparatorIsLocal(text, f, i, separators, MaxLength(separators));
      TakeLine(text, f, start, i, w, separators);
      Groups.Regroup(emitted, [text[start..i]], Scan(text + f, i + |w|, i + |w|, separators));
    }
  }

  lemma Receive(text: string, chunk: string, emitted: seq<string>, start: nat, i: nat, separators: seq<string>)
    requires NonEmptyAll(separators) && start <= |text| && start <= i
    requires Consistent(text, false, emitted, start, i, separators)
    ensures Consistent(text + chunk, false, emitted, start, i, separators)
  {
    hide Split, Scan;
    forall f
      ensures Split(text + chunk + f, separators) == emitted + Scan(text + chunk + f, start, i, separators)
    {
      assert text + chunk + f == text + (chunk + f);
    }
  }

  /** When the stream has ended and nothing is left to search, the rest of the text is the last line. */
  lemma Finish(text: string, emitted: seq<string>, start: nat, i: nat, separators: seq<string>)
    requires NonEmptyAll(separators) && start <= |text| <= i
    requires Consistent(text, true, emitted, start, i, separators)
    ensures var last := if start < |text| then [text[start..]] else [];
      && Split(text, separators) == emitted + last
      && Consistent(text, true, emitted + last, |text|, |text|, separators)
  {
    assert text + "" == text;
  }

  /** Lines that a consistent state has emitted are the first lines of every text that can still follow. */
  lemma EmittedIsFinal(text: string, emitted: seq<string>, start: nat, i: nat, separators: seq<string>, later: string)
    requires NonEmptyAll(separators) && start <= |text| && start <= i
    requires Consistent(text, false, emitted, start, i, separators)
    ensures emitted <= Split(text + later, separators)
  {
    hide Split, Scan;
  }

  lemma BufferView(text: string, start: nat, i: nat, w: string)
    requires start <= |text|
    ensures StartsWith(text[start..], w, i) <==> StartsWith(text, w, start + i)
  {
    if i + |w| <= |text[start..]| {
      assert text[start..][i..i + |w|] == text[start + i..start + i + |w|];
    }
  }

  lemma FoundInBuffer(text: string, start: nat, i: nat, separators: seq<string>, j: nat)
    requires start <= |text| && j < |separators|
    requires StartsWith(text[start..], separators[j], i)
    requires forall k | 0 <= k < j :: !StartsWith(text[start..], separators[k], i)
    ensures FirstSeparator(text, start + i, separators) == Some(separators[j])
  {
    forall k | 0 <= k <= j
      ensures StartsWith(text[start..], separators[k], i) <==> StartsWith(text, separators[k], start + i)
    {
      BufferView(text, start, i, separators[k]);
    }
    assert ChosenAt(text, start + i, separators, separators[j]);
    FirstSeparatorIsChosen(text, start + i, separators, separators[j]);
  }

  lemma NotInBuffer(text: string, start: nat, i: nat, separators: seq<string>)
    requires start <= |text|
    requires forall k | 0 <= k < |separators| :: !StartsWith(text[start..], separators[k], i)
    ensures FirstSeparator(text, start + i, separators) == None
  {
    NoSeparatorAt(text, start + i, separators);
    forall w | w in separators
      ensures !StartsWith(text, w, start + i)
    {
      BufferView(text, start, i, w);
    }
  }

  /** The emitted lines are right so far, and the search has taken no more rounds than characters (one more if there
      are no separators to search for). */
  ghost predicate Sound(text: string, ended: bool, emitted: seq<string>, start: nat, searchIndex: nat, rounds: nat,
                        separators: seq<string>)
  {
    && start <= |text| && NonEmptyAll(separators)
    && Consistent(text, ended, emitted, start, start + searchIndex, separators)
    && start + searchIndex <= |text| + (if separators == [] then 1 else 0)
    && rounds <= |text| + (if separators == [] then 1 else 0)
    && rounds <= start + searchIndex + (if separators == [] && ended && start == |text| then 1 else 0)
  }

  /** The buffer is the text from `start` on. */
  predicate IsTail(buffer: string, text: string, start: nat) {
    start <= |text| && buffer == text[start..]
  }

  lemma EmptyTail(text: string)
    ensures IsTail("", text, |text|)
  {
  }

  lemma SoundAdvance(buffer: string, text: string, ended: bool, emitted: seq<string>, start: nat, searchIndex: nat,
                     rounds: nat, separators: seq<string>)
    requires Sound(text, ended, emitted, start, searchIndex, rounds, separators) && IsTail(buffer, text, start)
    requires Searchable(buffer, ended, searchIndex, separators)
    requires forall k | 0 <= k < |separators| :: !StartsWith(buffer, separators[k], searchIndex)
    ensures Sound(text, ended, emitted, start, searchIndex + 1, rounds + 1, separators)
  {
    hide Consistent, StartsWith, FirstSeparator;
    NotInBuffer(text, start, searchIndex, separators);
    Advance(text, ended, emitted, start, start + searchIndex, separators);
    if separators != [] {
      assert separators[0] in separators;
    }
  }

  lemma SoundEmit(buffer: string, text: string, ended: bool, emitted: seq<string>, start: nat, searchIndex: nat,
                  rounds: nat, separators: seq<string>, j: nat)
    requires Sound(text, ended, emitted, start, searchIndex, rounds, separators) && IsTail(buffer, text, start)
    requires Searchable(buffer, ended, searchIndex, separators)
    requires j < |separators| && StartsWith(buffer, separators[j], searchIndex)
    requires forall k | 0 <= k < j :: !StartsWith(buffer, separators[k], searchIndex)
    ensures Sound(text, ended, emitted + [buffer[..searchIndex]], start + searchIndex + |separators[j]|, 0,
                  rounds + 1, separators)
  {
    hide Consistent, FirstSeparator;
    var i := start + searchIndex;
    FoundInBuffer(text, start, searchIndex, separators, j);
    Emit(text, ended, emitted, start, i, separators[j], separators);
    assert separators[j] in separators;
    assert buffer[..searchIndex] == text[start..i];
  }

  lemma SoundFinish(buffer: string, text: string, emitted: seq<string>, start: nat, searchIndex: nat, rounds: nat,
                    separators: seq<string>)
    requires Sound(text, true, emitted, start, searchIndex, rounds, separators) && IsTail(buffer, text, start)
    requires 0 < |buffer| <= searchIndex
    ensures Sound(text, true, emitted + [buffer], |text|, 0, rounds, separators)
  {
    hide Consistent;
    Finish(text, emitted, start, start + searchIndex, separators);
  }

  /** A line and one separator were cut off the front of the buffer. */
  ghost predicate CutFrom(before: string, line: string, after: string, separators: seq<string>) {
    exists w :: w in separators && before == line + w + after
  }

  /** Every line makes progress, except an empty line that is ended by an empty separator: polling would then
      return that line for ever. */
  lemma CutProgress(before: string, line: string, after: string, separators: seq<string>)
    requires CutFrom(before, line, after, separators)
    ensures |after| < |before| || ("" in separators && line == "" && after == before)
  {
  }

  lemma CutBuffer(buffer: string, text: string, start: nat, searchIndex: nat, separators: seq<string>, j: nat)
    requires j < |separators| && StartsWith(buffer, separators[j], searchIndex) && IsTail(buffer, text, start)
    ensures var k := searchIndex + |separators[j]|;
      && k <= |buffer|
      && IsTail(buffer[k..], text, start + k)
      && CutFrom(buffer, buffer[..searchIndex], buffer[k..], separators)
  {
    var w := separators[j];
    assert buffer == buffer[..searchIndex] + buffer[searchIndex..searchIndex + |w|] + buffer[searchIndex + |w|..];
    assert w in separators;
  }

  /** The inner loop of `getNextLine`: the index of the first separator that stands at position `i`. */
  method MatchAt(buffer: string, i: nat, separators: seq<string>) returns (j: nat)
    ensures j <= |separators|
    ensures forall k | 0 <= k < j :: !StartsWith(buffer, separators[k], i)
    ensures j < |separators| ==> StartsWith(buffer, separators[j], i)
  {
    j := 0;
    while j < |separators|
      invariant j <= |separators|
      invariant forall k | 0 <= k < j :: !StartsWith(buffer, separators[k], i)
    {
      if StartsWith(buffer, separators[j], i) {
        return;
      }
      j := j + 1;
    }
  }

  // ---------------------------------------------------------------------------
  // One poll, on values

  datatype Scanner = Scanner(buffer: string, searchIndex: nat, ended: bool)

  function Limit(s: Scanner, separators: seq<string>): int {
    if s.ended then |s.buffer| - 1 else |s.buffer| - MaxLength(separators)
  }

  /** `getNextLine`: its result, and the state it leaves */
  function Poll(s: Scanner, separators: seq<string>): (Option<string>, Scanner)
    decreases Limit(s, separators) - s.searchIndex
  {
    if s.searchIndex <= Limit(s, separators) then
      match FirstSeparator(s.buffer, s.searchIndex, separators)
      case None => Poll(s.(searchIndex := s.searchIndex + 1), separators)
      case Some(w) => (Some(s.buffer[..s.searchIndex]), Scanner(s.buffer[s.searchIndex + |w|..], 0, s.ended))
    else if s.ended && s.buffer != "" then (Some(s.buffer), Scanner("", 0, true))
    else (None, s)
  }

  // ---------------------------------------------------------------------------
  // Promptness

  /** No separator is longer than `n`, and one has this length. */
  ghost predicate IsLongest(separators: seq<string>, n: nat) {
    (forall w | w in separators :: |w| <= n) && exists w :: w in separators && |w| == n
  }

  lemma {:induction false} MaxLengthIsLongest(separators: seq<string>)
    ensures if separators == [] then MaxLength(separators) == 0 else IsLongest(separators, MaxLength(separators))
  {
    if separators != [] {
      MaxLengthIsLongest(separators[1..]);
      var n := MaxLength(separators);
      assert separators[0] in separators && forall w | w in separators[1..] :: w in separators;
      if |separators[0]| != n {
        var w :| w in separators[1..] && |w| == n;
      }
    }
  }

  /** The search comes across a separator at `i`. */
  ghost predicate FoundAt(s: Scanner, separators: seq<string>, i: int) {
    s.searchIndex <= i <= Limit(s, separators) && FirstSeparator(s.buffer, i, separators).Some?
  }

  lemma {:induction false} PollFindsIff(s: Scanner, separators: seq<string>)
    requires !s.ended
    ensures Poll(s, separators).0.Some? <==> exists i :: FoundAt(s, separators, i)
    decreases Limit(s, separators) - s.searchIndex
  {
    hide FirstSeparator, MaxLength;
    if s.searchIndex <= Limit(s, separators) {
      if FirstSeparator(s.buffer, s.searchIndex, separators).Some? {
        assert FoundAt(s, separators, s.searchIndex);
      } else {
        var next := s.(searchIndex := s.searchIndex + 1);
        PollFindsIff(next, separators);
        assert forall i :: FoundAt(s, separators, i) <==> FoundAt(next, separators, i);
      }
    }
  }

  /** A separator stands at `i`, and at least `n` characters have been received from there on. */
  ghost predicate SettledAt(buffer: string, separators: seq<string>, n: nat, i: int) {
    0 <= i && i + n <= |buffer| && exists w :: w in separators && StartsWith(buffer, w, i)
  }

  /** Before the end of the stream, a poll returns a line if and only if a separator stands where the search has not
      been yet, and as many characters have arrived from there on as the longest separator has: the line is not held
      back any longer than it must be. */
  lemma PollIsPrompt(s: Scanner, separators: seq<string>, n: nat)
    requires !s.ended && IsLongest(separators, n)
    ensures Poll(s, separators).0.Some? <==> exists i :: s.searchIndex <= i && SettledAt(s.buffer, separators, n, i)
  {
    hide Poll, FirstSeparator, MaxLength, StartsWith;
    MaxLengthIsLongest(separators);
    PollFindsIff(s, separators);
    forall i
      ensures FoundAt(s, separators, i) <==> s.searchIndex <= i && SettledAt(s.buffer, separators, n, i)
    {
      if 0 <= i {
        NoSeparatorAt(s.buffer, i, separators);
      }
    }
  }

  /** The same, for a poll that returns nothing: at no position from the search index on that has room for every
      separator, one stands. */
  lemma NothingWasFound(s: Scanner, separators: seq<string>)
    requires !s.ended && Poll(s, separators).0.None?
    ensures forall i: nat, w | s.searchIndex <= i && w in separators ::
              (forall v | v in separators :: i + |v| <= |s.buffer|) ==> !StartsWith(s.buffer, w, i)
  {
    hide Poll, MaxLength, StartsWith;
    if separators != [] {
      MaxLengthIsLongest(separators);
      var m := MaxLength(separators);
      PollIsPrompt(s, separators, m);
      forall i: nat, w | s.searchIndex <= i && w in separators && forall v | v in separators :: i + |v| <= |s.buffer|
        ensures !StartsWith(s.buffer, w, i)
      {
        var v :| v in separators && |v| == m;
        assert !SettledAt(s.buffer, separators, m, i);
      }
    }
  }

  /** The search has been everywhere before its index, and found nothing there that later input could change. */
  ghost predicate Searched(s: Scanner, separators: seq<string>) {
    && (s.searchIndex > 0 && separators != [] ==> s.searchIndex - 1 + MaxLength(separators) <= |s.buffer|)
    && forall i: nat, w | i < s.searchIndex && w in separators :: !StartsWith(s.buffer, w, i)
  }

  lemma SearchedOne(s: Scanner, separators: seq<string>)
    requires Searched(s, separators) && s.searchIndex + MaxLength(separators) <= |s.buffer|
    requires FirstSeparator(s.buffer, s.searchIndex, separators).None?
    ensures Searched(s.(searchIndex := s.searchIndex + 1), separators)
  {
    hide FirstSeparator, MaxLength, StartsWith;
    NoSeparatorAt(s.buffer, s.searchIndex, separators);
  }

  lemma {:induction false} PollSearches(s: Scanner, separators: seq<string>)
    requires !s.ended && Searched(s, separators)
    ensures var (line, next) := Poll(s, separators);
      && Searched(next, separators) && !next.ended
      && (line.None? ==> next.buffer == s.buffer)
    decreases Limit(s, separators) - s.searchIndex
  {
    hide FirstSeparator, MaxLength, Searched;
    if s.searchIndex <= Limit(s, separators) {
      var w := FirstSeparator(s.buffer, s.searchIndex, separators);
      if w.Some? {
        SearchedAfresh(Scanner(s.buffer[s.searchIndex + |w.value|..], 0, s.ended), separators);
      } else {
        SearchedOne(s, separators);
        PollSearches(s.(searchIndex := s.searchIndex + 1), separators);
      }
    }
  }

  lemma SearchedAfresh(s: Scanner, separators: seq<string>)
    requires s.searchIndex == 0
    ensures Searched(s, separators)
  {
  }

  lemma ReceivedIsSearched(s: Scanner, separators: seq<string>, chunk: string)
    requires Searched(s, separators)
    ensures Searched(s.(buffer := s.buffer + chunk), separators)
  {
    var r := s.(buffer := s.buffer + chunk);
    forall i: nat, w | i < r.searchIndex && w in separators
      ensures !StartsWith(r.buffer, w, i)
    {
      assert !StartsWith(s.buffer, w, i);
      assert i + |w| <= |s.buffer| && r.buffer[i..i + |w|] == s.buffer[i..i + |w|];
    }
  }

  /** Buffer to hold the state used when splitting a text stream into lines. */
  class SplitBuffer {
    const separators: seq<string>
    const maxSeparatorLength: nat
    var buffer: string
    var searchIndex: nat
    var ended: bool

    ghost var text: string           // everything received so far
    ghost var emitted: seq<string>   // every line returned so far
    ghost var start: nat             // where the buffer begins in the text
    ghost var rounds: nat            // iterations of the search loop so far

    ghost predicate Valid()
      reads this
    {
      && maxSeparatorLength == MaxLength(separators)
      && IsTail(buffer, text, start)
    }

    /** The lines emitted are right for every text that may still arrive, and the search has taken no more
        rounds than characters. */
    ghost predicate Agrees()
      reads this
    {
      Valid() && Sound(text, ended, emitted, start, searchIndex, rounds, separators)
    }

    constructor (separators: seq<string>)
      ensures this.separators == separators
      ensures Valid() && buffer == text == "" && emitted == [] && searchIndex == rounds == 0 && !ended
      ensures NonEmptyAll(separators) ==> Agrees()
    {
      this.separators := separators;
      maxSeparatorLength := MaxLength(separators);
      buffer, searchIndex, ended := "", 0, false;
      text, emitted, start, rounds := "", [], 0, 0;
    }

    method AddChunk(chunk: string)
      requires Valid()
      modifies this
      ensures Valid() && text == old(text) + chunk && buffer == old(buffer) + chunk
      ensures emitted == old(emitted) && ended == old(ended) && searchIndex == old(searchIndex)
      ensures old(Agrees()) && !ended ==> Agrees()
    {
      hide Consistent, MaxLength;
      assert (text + chunk)[start..] == text[start..] + chunk;
      if Agrees() && !ended {
        Receive(text, chunk, emitted, start, start + searchIndex, separators);
      }
      buffer := buffer + chunk;
      text := text + chunk;
    }

    method End()
      requires Valid()
      modifies this
      ensures Valid() && ended && text == old(text) && buffer == old(buffer)
      ensures emitted == old(emitted) && searchIndex == old(searchIndex)
      ensures old(Agrees()) ==> Agrees()
    {
      ended := true;
    }

    ghost function View(): Scanner
      reads this
    {
      Scanner(buffer, searchIndex, ended)
    }

    /** The next full line, if one is available; every character received is either returned, dropped as a
        separator, or kept. */
    method GetNextLine() returns (line: Option<string>)
      requires Valid()
      modifies this
      ensures Valid() && text == old(text) && ended == old(ended)
      ensures (line, View()) == Poll(old(View()), separators)
      ensures line.None? ==> emitted == old(emitted) && buffer == old(buffer) && (ended ==> buffer == "")
      ensures line.Some? ==> emitted == old(emitted) + [line.value]
      ensures line.Some? ==> || CutFrom(old(buffer), line.value, buffer, separators)
                             || (ended && old(buffer) == line.value != "" && buffer == "")
      ensures old(Agrees()) ==> Agrees()
    {
      hide MaxLength, Sound, StartsWith, CutFrom, NonEmptyAll, IsTail, FirstSeparator;
      var maxSearchIndex := if ended then |buffer| - 1 else |buffer| - maxSeparatorLength;
      while searchIndex <= maxSearchIndex
        invariant Valid() && text == old(text) && ended == old(ended)
        invariant emitted == old(emitted) && buffer == old(buffer)
        invariant Poll(View(), separators) == Poll(old(View()), separators)
        invariant old(Agrees()) ==> Agrees()
      {
        var j := MatchAt(buffer, searchIndex, separators);
        if j < |separators| {
          line := CutLine(j);
          return;
        }
        Skip();
      }
      if ended && |buffer| > 0 {
        line := TakeRest();
      } else {
        line := None;
      }
    }

    /** The line that a separator ends is cut off. */
    method CutLine(j: nat) returns (line: Option<string>)
      requires Valid() && j < |separators| && StartsWith(buffer, separators[j], searchIndex)
      requires forall k | 0 <= k < j :: !StartsWith(buffer, separators[k], searchIndex)
      requires searchIndex <= Limit(View(), separators)
      modifies this
      ensures Valid() && text == old(text) && ended == old(ended)
      ensures (line, View()) == Poll(old(View()), separators)
      ensures line.Some? && emitted == old(emitted) + [line.value]
      ensures CutFrom(old(buffer), line.value, buffer, separators)
      ensures old(Agrees()) ==> Agrees()
    {
      hide MaxLength, Sound, StartsWith, CutFrom, NonEmptyAll, IsTail, FirstSeparator;
      var separator := separators[j];
      line := Some(buffer[..searchIndex]);
      FoundHere(buffer, searchIndex, separators, j);
      if old(Agrees()) {
        SoundEmit(buffer, text, ended, emitted, start, searchIndex, rounds, separators, j);
      }
      CutBuffer(buffer, text, start, searchIndex, separators, j);
      emitted, start := emitted + [line.value], start + searchIndex + |separator|;
      buffer := buffer[searchIndex + |separator|..];
      searchIndex, rounds := 0, rounds + 1;
    }

    /** `this.searchIndex++` */
    method Skip()
      requires Valid() && searchIndex <= Limit(View(), separators)
      requires forall k | 0 <= k < |separators| :: !StartsWith(buffer, separators[k], searchIndex)
      modifies this
      ensures Valid() && text == old(text) && ended == old(ended) && emitted == old(emitted)
      ensures buffer == old(buffer) && searchIndex == old(searchIndex) + 1
      ensures Poll(View(), separators) == Poll(old(View()), separators)
      ensures old(Agrees()) ==> Agrees()
    {
      hide MaxLength, Sound, StartsWith, IsTail, FirstSeparator;
      NotFoundHere(buffer, searchIndex, separators);
      if old(Agrees()) {
        SoundAdvance(buffer, text, ended, emitted, start, searchIndex, rounds, separators);
      }
      searchIndex, rounds := searchIndex + 1, rounds + 1;
    }

    /** What is left at the end is the last line. */
    method TakeRest() returns (line: Option<string>)
      requires Valid() && ended && buffer != "" && searchIndex > Limit(View(), separators)
      modifies this
      ensures Valid() && text == old(text) && ended
      ensures (line, View()) == Poll(old(View()), separators)
      ensures line == Some(old(buffer)) && emitted == old(emitted) + [old(buffer)] && buffer == ""
      ensures old(Agrees()) ==> Agrees()
    {
      hide MaxLength, Sound, FirstSeparator;
      if old(Agrees()) {
        SoundFinish(buffer, text, emitted, start, searchIndex, rounds, separators);
      }
      line := Some(buffer);
      emitted, start := emitted + [buffer], |text|;
      EmptyTail(text);
      buffer := "";
      searchIndex := 0;
    }
  }

  lemma FoundHere(buffer: string, i: nat, separators: seq<string>, j: nat)
    requires j < |separators| && StartsWith(buffer, separators[j], i)
    requires forall k | 0 <= k < j :: !StartsWith(buffer, separators[k], i)
    ensures FirstSeparator(buffer, i, separators) == Some(separators[j])
  {
    hide StartsWith;
    FirstSeparatorIsChosen(buffer, i, separators, separators[j]);
  }

  lemma NotFoundHere(buffer: string, i: nat, separators: seq<string>)
    requires forall k | 0 <= k < |separators| :: !StartsWith(buffer, separators[k], i)
    ensures FirstSeparator(buffer, i, separators) == None
  {
    hide StartsWith;
    NoSeparatorAt(buffer, i, separators);
  }

  function Concat(chunks: seq<string>): string {
    if chunks == [] then "" else Concat(chunks[..|chunks| - 1]) + chunks[|chunks| - 1]
  }

  // ---------------------------------------------------------------------------
  // Empty separators

  /** The polling loop stops after exactly `k` lines. */
  predicate Stops(s: Scanner, separators: seq<string>, k: nat)
    decreases k
  {
    var (line, next) := Poll(s, separators);
    if k == 0 then line.None? else line.Some? && Stops(next, separators, k - 1)
  }

  /** The state after a polling loop of `k` lines */
  function After(s: Scanner, separators: seq<string>, k: nat): Scanner
    decreases k
  {
    var (_, next) := Poll(s, separators);
    if k == 0 then next else After(next, separators, k - 1)
  }

  /** Every loop of `splitStreamAtSeparators` stops, for the chunks that are still to come. */
  ghost predicate StreamStops(s: Scanner, separators: seq<string>, chunks: seq<string>)
    decreases |chunks|
  {
    if chunks == [] then exists k: nat :: Stops(s.(ended := true), separators, k)
    else
      var received := s.(buffer := s.buffer + chunks[0]);
      exists k: nat :: Stops(received, separators, k) &&
                       StreamStops(After(received, separators, k), separators, chunks[1..])
  }

  /** An empty line that an empty separator ends leaves everything as it was, so it is returned for ever. */
  lemma {:induction false} EmptyLineRepeats(s: Scanner, separators: seq<string>, k: nat)
    requires Poll(s, separators) == (Some(""), s)
    ensures !Stops(s, separators, k) && After(s, separators, k) == s
    decreases k
  {
    hide Poll;
    if k > 0 {
      EmptyLineRepeats(s, separators, k - 1);
    }
  }

  /** Every piece of the text is taken by a non-empty separator that stands before the first empty one. */
  predicate Consumed(text: string, separators: seq<string>)
    decreases |text|
  {
    if text == "" then true
    else
      match FirstSeparator(text, 0, separators)
      case None => false
      case Some(w) => w != "" && Consumed(text[|w|..], separators)
  }

  /** What polling leaves of a buffer whose front is taken by non-empty separators, or `None` if it gets to an
      empty one. */
  function Drain(s: Scanner, separators: seq<string>): Option<Scanner>
    decreases |s.buffer|
  {
    if 0 > Limit(s, separators) then Some(s)
    else
      match FirstSeparator(s.buffer, 0, separators)
      case None => None
      case Some(w) =>
        if w == "" then None
        else
          Drain(s.(buffer := s.buffer[|w|..]), separators)
  }

  lemma {:induction false} EmptyStandsAnywhere(s: string, i: nat, separators: seq<string>)
    requires "" in separators && i <= |s|
    ensures FirstSeparator(s, i, separators).Some?
  {
    hide FirstSeparator, StartsWith;
    NoSeparatorAt(s, i, separators);
    EmptyStandsAt(s, i);
  }

  lemma EmptyStandsAt(s: string, i: nat)
    requires i <= |s|
    ensures StartsWith(s, "", i)
  {
  }

  /** With an empty separator in the list, a poll from the front of the buffer never searches any further. */
  lemma PollAtFront(s: Scanner, separators: seq<string>)
    requires "" in separators && s.searchIndex == 0
    ensures Poll(s, separators) ==
            if Limit(s, separators) < 0 then (None, s)
            else
              var w := FirstSeparator(s.buffer, 0, separators);
              (Some(""), if w.Some? then s.(buffer := s.buffer[|w.value|..]) else s)
    ensures Limit(s, separators) >= 0 ==> FirstSeparator(s.buffer, 0, separators).Some?
  {
    hide FirstSeparator, MaxLength;
    EmptyStandsAnywhere(s.buffer, 0, separators);
    assert s.buffer[..0] == "";
  }

  /** Then the polling loop stops exactly if it can drain the buffer, and leaves what that leaves. */
  lemma {:induction false} LoopStopsIff(s: Scanner, separators: seq<string>, k: nat)
    requires "" in separators && s.searchIndex == 0
    ensures Stops(s, separators, k) ==>
              Drain(s, separators).Some? && After(s, separators, k) == Drain(s, separators).value
    decreases k
  {
    hide Poll, FirstSeparator, Limit;
    PollAtFront(s, separators);
    if Limit(s, separators) >= 0 && k > 0 {
      var w := FirstSeparator(s.buffer, 0, separators).value;
      if w == "" {
        assert s.buffer[0..] == s.buffer;
        EmptyLineRepeats(s, separators, k);
      } else {
        LoopStopsIff(s.(buffer := s.buffer[|w|..]), separators, k - 1);
      }
    }
  }

  lemma {:induction false} DrainedLoopStops(s: Scanner, separators: seq<string>) returns (k: nat)
    requires "" in separators && s.searchIndex == 0 && Drain(s, separators).Some?
    ensures Stops(s, separators, k) && After(s, separators, k) == Drain(s, separators).value
    decreases |s.buffer|
  {
    hide Poll, FirstSeparator, Limit;
    PollAtFront(s, separators);
    if Limit(s, separators) < 0 {
      k := 0;
    } else {
      var w := FirstSeparator(s.buffer, 0, separators).value;
      k := DrainedLoopStops(s.(buffer := s.buffer[|w|..]), separators);
      k := k + 1;
    }
  }

  /** Draining what has arrived does not change whether the whole text is consumed. */
  lemma {:induction false} DrainKeepsConsumed(s: Scanner, separators: seq<string>, f: string)
    requires "" in separators && s.searchIndex == 0 && !s.ended && MaxLength(separators) > 0
    ensures Consumed(s.buffer + f, separators) <==>
            Drain(s, separators).Some? && Consumed(Drain(s, separators).value.buffer + f, separators)
    ensures Drain(s, separators).Some? ==>
              Drain(s, separators).value.searchIndex == 0 && !Drain(s, separators).value.ended
    decreases |s.buffer|
  {
    hide FirstSeparator, MaxLength;
    if Limit(s, separators) >= 0 {
      EmptyStandsAnywhere(s.buffer, 0, separators);
      SeparatorIsLocal(s.buffer, f, 0, separators, MaxLength(separators));
      var w := FirstSeparator(s.buffer, 0, separators).value;
      if w != "" {
        assert (s.buffer + f)[|w|..] == s.buffer[|w|..] + f;
        DrainKeepsConsumed(s.(buffer := s.buffer[|w|..]), separators, f);
      }
    }
  }

  lemma {:induction false} DrainAtEnd(s: Scanner, separators: seq<string>)
    requires s.searchIndex == 0 && s.ended
    ensures Drain(s, separators).Some? <==> Consumed(s.buffer, separators)
    decreases |s.buffer|
  {
    hide FirstSeparator;
    if s.buffer != "" {
      var w := FirstSeparator(s.buffer, 0, separators);
      if w.Some? && w.value != "" {
        DrainAtEnd(s.(buffer := s.buffer[|w.value|..]), separators);
      }
    }
  }

  lemma {:induction false} ConcatFront(chunks: seq<string>)
    requires chunks != []
    ensures Concat(chunks) == chunks[0] + Concat(chunks[1..])
    decreases |chunks|
  {
    var n := |chunks| - 1;
    if n > 0 {
      ConcatFront(chunks[..n]);
      assert chunks[1..][..n - 1] == chunks[..n][1..];
      ConcatLast(chunks[1..]);
      Groups.Regroup(chunks[0], Concat(chunks[1..][..n - 1]), chunks[n]);
    } else {
      assert chunks[..0] == [] && chunks[1..] == [];
    }
  }

  lemma ConcatLast(chunks: seq<string>)
    requires chunks != []
    ensures Concat(chunks) == Concat(chunks[..|chunks| - 1]) + chunks[|chunks| - 1]
  {
  }

  /** With an empty separator in the list, a stream comes to an end exactly if its text is made up of separators
      that take precedence over the empty one. */
  lemma {:induction false} StreamStopsIffConsumed(s: Scanner, separators: seq<string>, chunks: seq<string>)
    requires "" in separators && MaxLength(separators) > 0 && s.searchIndex == 0 && !s.ended
    ensures StreamStops(s, separators, chunks) <==> Consumed(s.buffer + Concat(chunks), separators)
    decreases |chunks|
  {
    hide Stops, After, Poll, Consumed, MaxLength, Drain;
    if chunks == [] {
      assert s.buffer + "" == s.buffer;
      var e := s.(ended := true);
      DrainAtEnd(e, separators);
      if k: nat :| Stops(e, separators, k) {
        LoopStopsIff(e, separators, k);
      }
      if Drain(e, separators).Some? {
        var k := DrainedLoopStops(e, separators);
      }
    } else {
      var received := s.(buffer := s.buffer + chunks[0]);
      var rest := chunks[1..];
      ConcatFront(chunks);
      assert s.buffer + Concat(chunks) == received.buffer + Concat(rest);
      DrainKeepsConsumed(received, separators, Concat(rest));
      if Drain(received, separators).Some? {
        var k := DrainedLoopStops(received, separators);
        StreamStopsIffConsumed(After(received, separators, k), separators, rest);
      }
      if k: nat :| Stops(received, separators, k) && StreamStops(After(received, separators, k), separators, rest) {
        LoopStopsIff(received, separators, k);
      }
    }
  }

  /** If all separators are empty, the first chunk is never got over. */
  lemma OnlyEmptySeparators(s: Scanner, separators: seq<string>, k: nat)
    requires "" in separators && MaxLength(separators) == 0 && s.searchIndex == 0 && !s.ended
    ensures !Stops(s, separators, k)
  {
    hide Stops, FirstSeparator, MaxLength;
    EmptyStandsAnywhere(s.buffer, 0, separators);
    LoopStopsIff(s, separators, k);
  }

  lemma {:induction false} PollShrinks(s: Scanner, separators: seq<string>)
    requires NonEmptyAll(separators)
    ensures Poll(s, separators).0.Some? ==> |Poll(s, separators).1.buffer| < |s.buffer|
    decreases Limit(s, separators) - s.searchIndex
  {
    hide FirstSeparator, MaxLength, StartsWith;
    if s.searchIndex <= Limit(s, separators) {
      var w := FirstSeparator(s.buffer, s.searchIndex, separators);
      if w.Some? {
        SeparatorFits(s.buffer, s.searchIndex, separators);
      } else {
        PollShrinks(s.(searchIndex := s.searchIndex + 1), separators);
      }
    }
  }

  lemma {:induction false} LoopStops(s: Scanner, separators: seq<string>) returns (k: nat)
    requires NonEmptyAll(separators)
    ensures Stops(s, separators, k)
    decreases |s.buffer|
  {
    hide Poll, NonEmptyAll;
    PollShrinks(s, separators);
    k := 0;
    if Poll(s, separators).0.Some? {
      k := LoopStops(Poll(s, separators).1, separators);
      k := k + 1;
    }
  }

  lemma {:induction false} StreamEnds(s: Scanner, separators: seq<string>, chunks: seq<string>)
    requires NonEmptyAll(separators)
    ensures StreamStops(s, separators, chunks)
    decreases |chunks|
  {
    hide Stops, After, NonEmptyAll;
    if chunks == [] {
      var k := LoopStops(s.(ended := true), separators);
    } else {
      var received := s.(buffer := s.buffer + chunks[0]);
      var k := LoopStops(received, separators);
      StreamEnds(After(received, separators, k), separators, chunks[1..]);
    }
  }

  /** Exactly when a stream comes to an end: no separator is empty; or the whole text is made up of separators that
      take precedence over the empty one, and either some separator is not empty or there is no chunk at all. */
  lemma StreamEndsIff(separators: seq<string>, chunks: seq<string>)
    ensures StreamStops(Scanner("", 0, false), separators, chunks) <==>
            || NonEmptyAll(separators)
            || (Consumed(Concat(chunks), separators) && (MaxLength(separators) > 0 || chunks == []))
  {
    hide Stops, After, Consumed, MaxLength;
    var s := Scanner("", 0, false);
    if NonEmptyAll(separators) {
      StreamEnds(s, separators, chunks);
    } else if MaxLength(separators) > 0 {
      StreamStopsIffConsumed(s, separators, chunks);
      assert "" + Concat(chunks) == Concat(chunks);
    } else if chunks == [] {
      NothingToSplit(separators);
    } else {
      forall k: nat
        ensures !Stops(s.(buffer := s.buffer + chunks[0]), separators, k)
      {
        OnlyEmptySeparators(s.(buffer := s.buffer + chunks[0]), separators, k);
      }
    }
  }

  lemma NothingToSplit(separators: seq<string>)
    ensures StreamStops(Scanner("", 0, false), separators, []) && Consumed(Concat([]), separators)
  {
    assert Stops(Scanner("", 0, true), separators, 0);
  }

  // ---------------------------------------------------------------------------
  // Splitting a stream

  /** How many separators a consumed text is made of. */
  function Pieces(text: string, separators: seq<string>): nat
    requires Consumed(text, separators)
    decreases |text|
  {
    if text == "" then 0 else 1 + Pieces(text[|FirstSeparator(text, 0, separators).value|..], separators)
  }

  function EmptyLines(n: nat): seq<string> {
    if n == 0 then [] else EmptyLines(n - 1) + [""]
  }

  lemma {:induction false} EmptyLinesSplit(a: nat, b: nat)
    ensures EmptyLines(a) + EmptyLines(b) == EmptyLines(a + b)
    decreases b
  {
    if b == 0 {
      assert EmptyLines(a) + [] == EmptyLines(a);
    } else {
      EmptyLinesSplit(a, b - 1);
      Groups.Regroup(EmptyLines(a), EmptyLines(b - 1), [""]);
    }
  }

  /** With an empty separator in the list, a loop takes one separator off the text with each line. */
  lemma {:induction false} LoopTakesPieces(s: Scanner, separators: seq<string>, k: nat, f: string)
    requires "" in separators && s.searchIndex == 0 && Stops(s, separators, k) && Consumed(s.buffer + f, separators)
    requires if s.ended then f == "" else MaxLength(separators) > 0
    ensures var r := After(s, separators, k);
      && r.searchIndex == 0 && r.ended == s.ended && Consumed(r.buffer + f, separators)
      && Pieces(s.buffer + f, separators) == k + Pieces(r.buffer + f, separators)
    decreases k
  {
    hide Poll, FirstSeparator, MaxLength;
    PollAtFront(s, separators);
    if k > 0 {
      PieceIsLocal(s, separators, f);
      var w := FirstSeparator(s.buffer, 0, separators).value;
      assert (s.buffer + f)[|w|..] == s.buffer[|w|..] + f;
      LoopTakesPieces(s.(buffer := s.buffer[|w|..]), separators, k - 1, f);
    }
  }

  lemma PieceIsLocal(s: Scanner, separators: seq<string>, f: string)
    requires "" in separators && s.searchIndex == 0 && Limit(s, separators) >= 0
    requires if s.ended then f == "" else MaxLength(separators) > 0
    ensures FirstSeparator(s.buffer, 0, separators).Some? && s.buffer + f != ""
    ensures FirstSeparator(s.buffer + f, 0, separators) == FirstSeparator(s.buffer, 0, separators)
  {
    hide FirstSeparator, MaxLength;
    EmptyStandsAnywhere(s.buffer, 0, separators);
    if s.ended {
      assert s.buffer + f == s.buffer;
    } else {
      SeparatorIsLocal(s.buffer, f, 0, separators, MaxLength(separators));
    }
  }

  /** Before the end of the stream, a polling loop takes every line that has arrived completely: it leaves no separator
      in the buffer at a position that has room for every separator. */
  lemma {:induction false} LoopIsPrompt(s: Scanner, separators: seq<string>, k: nat)
    requires !s.ended && Searched(s, separators) && Stops(s, separators, k)
    ensures var r := After(s, separators, k);
      && !r.ended && Searched(r, separators)
      && forall i: nat, w | w in separators ::
           (forall v | v in separators :: i + |v| <= |r.buffer|) ==> !StartsWith(r.buffer, w, i)
    decreases k
  {
    hide Poll, Searched, StartsWith, MaxLength;
    PollSearches(s, separators);
    if k > 0 {
      LoopIsPrompt(Poll(s, separators).1, separators, k - 1);
    } else {
      NothingWasFound(s, separators);
      NothingSkipped(s, separators);
    }
  }

  /** The state `r` is reached from `s` when the chunks are received, with a polling loop after each of them. */
  ghost predicate Reaches(s: Scanner, separators: seq<string>, chunks: seq<string>, r: Scanner)
    decreases |chunks|
  {
    if chunks == [] then r == s
    else
      var received := s.(buffer := s.buffer + chunks[0]);
      exists k: nat ::
        Stops(received, separators, k) && Reaches(After(received, separators, k), separators, chunks[1..], r)
  }

  /** So after each chunk every line that has arrived with room for every separator behind it has been returned:
      of the text so far, only a tail in which no such separator stands is kept back. */
  lemma {:induction false} StreamIsPrompt(s: Scanner, separators: seq<string>, chunks: seq<string>, r: Scanner)
    requires !s.ended && Searched(s, separators) && chunks != [] && Reaches(s, separators, chunks, r)
    ensures forall i: nat, w | w in separators ::
              (forall v | v in separators :: i + |v| <= |r.buffer|) ==> !StartsWith(r.buffer, w, i)
    decreases |chunks|
  {
    hide Searched, Stops, After, StartsWith;
    var received := s.(buffer := s.buffer + chunks[0]);
    ReceivedIsSearched(s, separators, chunks[0]);
    var k: nat :| Stops(received, separators, k) && Reaches(After(received, separators, k), separators, chunks[1..], r);
    LoopIsPrompt(received, separators, k);
    if |chunks| > 1 {
      StreamIsPrompt(After(received, separators, k), separators, chunks[1..], r);
    }
  }

  lemma NothingSkipped(s: Scanner, separators: seq<string>)
    requires Searched(s, separators)
    ensures forall i: nat, w | i < s.searchIndex && w in separators :: !StartsWith(s.buffer, w, i)
  {
    hide StartsWith, MaxLength;
  }

  lemma LoopStep(s: Scanner, separators: seq<string>, k: nat, line: Option<string>, next: Scanner)
    requires Stops(s, separators, k) && Poll(s, separators) == (line, next)
    ensures line.None? ==> k == 0 && After(s, separators, k) == next
    ensures line.Some? ==> k > 0 && Stops(next, separators, k - 1) &&
                           After(s, separators, k) == After(next, separators, k - 1)
    ensures line.Some? && "" in separators && s.searchIndex == 0 ==> line.value == "" && next.searchIndex == 0
  {
    hide Poll;
    if "" in separators && s.searchIndex == 0 {
      PollAtFront(s, separators);
    }
  }

  /** The polling loop: take lines until none is available. */
  method TakeLines(buffer: SplitBuffer, ghost k: nat) returns (lines: seq<string>)
    requires buffer.Valid() && Stops(buffer.View(), buffer.separators, k)
    modifies buffer
    ensures buffer.Valid() && buffer.ended == old(buffer.ended) && buffer.text == old(buffer.text)
    ensures buffer.View() == After(old(buffer.View()), buffer.separators, k)
    ensures |lines| == k && buffer.emitted == old(buffer.emitted) + lines
    ensures "" in buffer.separators && old(buffer.searchIndex) == 0 ==> lines == EmptyLines(k)
    ensures buffer.ended ==> buffer.buffer == ""
    ensures old(buffer.Agrees()) ==> buffer.Agrees()
  {
    hide Sound, MaxLength, CutFrom, IsTail, Poll, Stops, After, Limit;
    ghost var before := buffer.View();
    ghost var onlyEmpty := "" in buffer.separators && buffer.searchIndex == 0;
    lines := [];
    var line := buffer.GetNextLine();
    LoopStep(before, buffer.separators, k, line, buffer.View());
    while line.Some?
      invariant buffer.Valid() && buffer.ended == old(buffer.ended) && buffer.text == old(buffer.text)
      invariant buffer.emitted == old(buffer.emitted) + lines + (if line.Some? then [line.value] else [])
      invariant line.None? && buffer.ended ==> buffer.buffer == ""
      invariant old(buffer.Agrees()) ==> buffer.Agrees()
      invariant |lines| <= k && (line.None? ==> |lines| == k && buffer.View() == After(before, buffer.separators, k))
      invariant line.Some? ==> |lines| < k && Stops(buffer.View(), buffer.separators, k - |lines| - 1)
      invariant line.Some? ==>
                  After(buffer.View(), buffer.separators, k - |lines| - 1) == After(before, buffer.separators, k)
      invariant onlyEmpty ==> lines == EmptyLines(|lines|) && (line.Some? ==> line.value == "")
      invariant onlyEmpty && line.Some? ==> buffer.searchIndex == 0
      decreases k - |lines|, line.Some?
    {
      lines := lines + [line.value];
      ghost var polled := buffer.View();
      line := buffer.GetNextLine();
      LoopStep(polled, buffer.separators, k - |lines|, line, buffer.View());
    }
  }

  /** Exactly the streams that come to an end (`StreamEndsIff`) */
  predicate Ends(separators: seq<string>, chunks: seq<string>) {
    || NonEmptyAll(separators)
    || (Consumed(Concat(chunks), separators) && (MaxLength(separators) > 0 || chunks == []))
  }

  /** With an empty separator in the list: the lines so far, and one for each separator to come, are those of the
      whole text. */
  ghost predicate IsTaken(s: Scanner, separators: seq<string>, rest: seq<string>, text: string, lines: seq<string>) {
    && s.searchIndex == 0
    && Consumed(text, separators) && Consumed(s.buffer + Concat(rest), separators)
    && lines == EmptyLines(|lines|)
    && Pieces(text, separators) == |lines| + Pieces(s.buffer + Concat(rest), separators)
  }

  lemma NothingTaken(separators: seq<string>, chunks: seq<string>)
    requires Consumed(Concat(chunks), separators)
    ensures IsTaken(Scanner("", 0, false), separators, chunks, Concat(chunks), [])
  {
    hide Consumed, Pieces;
    assert "" + Concat(chunks) == Concat(chunks);
  }

  lemma ChunkIsTaken(s: Scanner, separators: seq<string>, rest: seq<string>, text: string, lines: seq<string>, k: nat)
    requires "" in separators && MaxLength(separators) > 0 && !s.ended && rest != []
    requires IsTaken(s, separators, rest, text, lines)
    requires Stops(s.(buffer := s.buffer + rest[0]), separators, k)
    ensures s.searchIndex == 0
    ensures IsTaken(After(s.(buffer := s.buffer + rest[0]), separators, k), separators, rest[1..], text,
                    lines + EmptyLines(k))
  {
    hide Consumed, Pieces, MaxLength, Stops, After;
    ConcatFront(rest);
    assert s.buffer + Concat(rest) == s.buffer + rest[0] + Concat(rest[1..]);
    LoopTakesPieces(s.(buffer := s.buffer + rest[0]), separators, k, Concat(rest[1..]));
    EmptyLinesSplit(|lines|, k);
    EmptyLinesLength(k);
  }

  lemma RestIsTaken(s: Scanner, separators: seq<string>, text: string, lines: seq<string>, k: nat)
    requires "" in separators && s.ended && IsTaken(s.(ended := false), separators, [], text, lines)
    requires Stops(s, separators, k)
    ensures s.searchIndex == 0 && Consumed(text, separators)
    ensures After(s, separators, k).buffer == "" ==> lines + EmptyLines(k) == EmptyLines(Pieces(text, separators))
  {
    hide MaxLength, Stops, After;
    assert s.buffer + Concat([]) == s.buffer + "";
    LoopTakesPieces(s, separators, k, "");
    EmptyLinesSplit(|lines|, k);
  }

  lemma NextLoop(s: Scanner, separators: seq<string>, chunks: seq<string>) returns (k: nat)
    requires chunks != [] && StreamStops(s, separators, chunks)
    ensures var received := s.(buffer := s.buffer + chunks[0]);
      Stops(received, separators, k) && StreamStops(After(received, separators, k), separators, chunks[1..])
  {
    hide Stops, After;
    var received := s.(buffer := s.buffer + chunks[0]);
    k :| Stops(received, separators, k) && StreamStops(After(received, separators, k), separators, chunks[1..]);
  }

  lemma LastLoop(s: Scanner, separators: seq<string>) returns (k: nat)
    requires StreamStops(s, separators, [])
    ensures Stops(s.(ended := true), separators, k)
  {
    hide Stops;
    k :| Stops(s.(ended := true), separators, k);
  }

  lemma {:induction false} EmptyLinesLength(n: nat)
    ensures |EmptyLines(n)| == n
  {
    if n > 0 {
      EmptyLinesLength(n - 1);
    }
  }

  /** `splitStreamAtSeparators`: the lines do not depend on how the stream is cut into chunks.  If a separator is empty,
      they are all empty, one for each separator that the text is made of. */
  method SplitStreamAtSeparators(chunks: seq<string>, separators: seq<string>) returns (lines: seq<string>)
    requires Ends(separators, chunks)
    ensures NonEmptyAll(separators) ==> lines == Split(Concat(chunks), separators)
    ensures !NonEmptyAll(separators) ==>
              Consumed(Concat(chunks), separators) && lines == EmptyLines(Pieces(Concat(chunks), separators))
  {
    hide Split, Scan, Sound, MaxLength, Stops, After, Consumed, Pieces, IsTaken, EmptyLines, StreamStops;
    StreamEndsIff(separators, chunks);
    var buffer := new SplitBuffer(separators);
    lines := [];
    if !NonEmptyAll(separators) {
      NothingTaken(separators, chunks);
    }
    assert chunks[0..] == chunks;
    for n := 0 to |chunks|
      invariant fresh(buffer) && buffer.separators == separators && buffer.Valid() && !buffer.ended
      invariant StreamStops(buffer.View(), separators, chunks[n..])
      invariant buffer.text == Concat(chunks[..n]) && lines == buffer.emitted
      invariant NonEmptyAll(separators) ==> buffer.Agrees()
      invariant !NonEmptyAll(separators) ==> IsTaken(buffer.View(), separators, chunks[n..], Concat(chunks), lines)
    {
      assert chunks[..n + 1][..n] == chunks[..n] && chunks[n..][1..] == chunks[n + 1..];
      ghost var before := buffer.View();
      ghost var k := NextLoop(before, separators, chunks[n..]);
      buffer.AddChunk(chunks[n]);
      if !NonEmptyAll(separators) {
        ChunkIsTaken(before, separators, chunks[n..], Concat(chunks), lines, k);
      }
      var more := TakeLines(buffer, k);
      lines := lines + more;
    }
    assert chunks[..|chunks|] == chunks && chunks[|chunks|..] == [];
    ghost var k := LastLoop(buffer.View(), separators);
    buffer.End();
    ghost var before := buffer.View();
    ghost var taken := lines;
    var more := TakeLines(buffer, k);
    lines := lines + more;
    if !NonEmptyAll(separators) {
      RestIsTaken(before, separators, Concat(chunks), taken, k);
    }
    if NonEmptyAll(separators) {
      Finished(buffer);
    }
  }

  lemma Finished(buffer: SplitBuffer)
    requires buffer.Agrees() && buffer.ended && buffer.buffer == ""
    ensures buffer.emitted == Split(buffer.text, buffer.separators)
  {
    assert buffer.start == |buffer.text|;
    assert buffer.text + "" == buffer.text;
    Finish(buffer.text, buffer.emitted, buffer.start, buffer.start + buffer.searchIndex, buffer.separators);
  }
}
