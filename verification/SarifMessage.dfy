/** Parsing of SARIF plain text messages with embedded links
    (extensions/ql-vscode/src/common/sarif-utils.ts).

    The link regular expression is given twice: as the relation `Matches`, read off the pattern piece by
    piece, and as the deterministic scanner `LinkAt`.  `LinkAtIsTheRegex` shows that they agree, so
    backtracking in a regular expression engine can never change the outcome. */
module SarifMessage {
  import opened Wrappers

  /** One component of a parsed message: plain text, or a link to a related location. */
  datatype Component = Text(text: string) | Link(dest: nat, linkText: string)

  /** A match of the link pattern: the opening bracket, the closing bracket, and one past the `)`. */
  datatype Span = Span(start: nat, close: nat, end: nat)

  predicate IsSpecial(c: char) {
    c == '\\' || c == '[' || c == ']'
  }

  predicate IsDigit(c: char) {
    '0' <= c <= '9'
  }

  // ---------------------------------------------------------------------------
  // Escaping

  /** A global replace of the two-character pattern `ab` by `r`. */
  function ReplacePairs(s: string, a: char, b: char, r: char): string
  {
    if |s| < 2 then s
    else if s[0] == a && s[1] == b then [r] + ReplacePairs(s[2..], a, b, r)
    else [s[0]] + ReplacePairs(s[1..], a, b, r)
  }

  /** `unescapeSarifText`: three successive global replaces. */
  function Unescape(message: string): string {
    var openings := ReplacePairs(message, '\\', '[', '[');
    var closings := ReplacePairs(openings, '\\', ']', ']');
    ReplacePairs(closings, '\\', '\\', '\\')
  }

  /** What unescaping should mean: one left-to-right scan that consumes escape pairs. */
  function UnescapeOnce(s: string): string {
    if s == [] then []
    else if |s| >= 2 && s[0] == '\\' && IsSpecial(s[1]) then [s[1]] + UnescapeOnce(s[2..])
    else [s[0]] + UnescapeOnce(s[1..])
  }

  function EscapeChar(c: char): string {
    if IsSpecial(c) then ['\\', c] else [c]
  }

  /** The escaping that SARIF producers apply to plain text. */
  function Escape(s: string): string {
    if s == [] then [] else EscapeChar(s[0]) + Escape(s[1..])
  }

  /** The first two replaces together: drop every backslash that stands directly before a bracket. */
  function DropBracketEscapes(s: string): string {
    if s == [] then []
    else if |s| >= 2 && s[0] == '\\' && (s[1] == '[' || s[1] == ']') then [s[1]] + DropBracketEscapes(s[2..])
    else [s[0]] + DropBracketEscapes(s[1..])
  }

  lemma {:induction false} FirstTwoReplaces(s: string)
    ensures ReplacePairs(ReplacePairs(s, '\\', '[', '['), '\\', ']', ']') == DropBracketEscapes(s)
    decreases |s|
  {
    if |s| >= 2 {
      if s[0] == '\\' && s[1] == '[' {
        FirstTwoReplaces(s[2..]);
        PushThrough('[', ReplacePairs(s[2..], '\\', '[', '['));
      } else if s[0] == '\\' && s[1] == ']' {
        FirstTwoReplaces(s[2..]);
        SecondDrops(s);
      } else {
        FirstTwoReplaces(s[1..]);
        SecondKeeps(s);
      }
    }
  }

  /** The second replace drops a backslash that stands before a closing bracket. */
  lemma SecondDrops(s: string)
    requires |s| >= 2 && s[0] == '\\' && s[1] == ']'
    ensures ReplacePairs(ReplacePairs(s, '\\', '[', '['), '\\', ']', ']') ==
            [']'] + ReplacePairs(ReplacePairs(s[2..], '\\', '[', '['), '\\', ']', ']')
  {
    var tail := ReplacePairs(s[2..], '\\', '[', '[');
    assert s[1..] == [']'] + s[2..];
    PushOpening(']', s[2..]);
    var whole := ['\\'] + ([']'] + tail);
    assert whole[2..] == tail;
  }

  /** No other character is dropped. */
  lemma SecondKeeps(s: string)
    requires |s| >= 2 && !(s[0] == '\\' && (s[1] == '[' || s[1] == ']'))
    ensures ReplacePairs(ReplacePairs(s, '\\', '[', '['), '\\', ']', ']') ==
            [s[0]] + ReplacePairs(ReplacePairs(s[1..], '\\', '[', '['), '\\', ']', ']')
  {
    var rest := ReplacePairs(s[1..], '\\', '[', '[');
    var whole := [s[0]] + rest;
    assert whole[1..] == rest;
    if s[0] == '\\' {
      assert s[1..][0] == s[1];
      assert rest != [] && rest[0] != ']';
    }
  }

  /** A character that is no backslash passes through a replace unchanged. */
  lemma PushThrough(c: char, s: string)
    requires c != '\\'
    ensures ReplacePairs([c] + s, '\\', ']', ']') == [c] + ReplacePairs(s, '\\', ']', ']')
  {
    assert ([c] + s)[1..] == s;
  }

  lemma PushOpening(c: char, s: string)
    requires c != '\\'
    ensures ReplacePairs([c] + s, '\\', '[', '[') == [c] + ReplacePairs(s, '\\', '[', '[')
  {
    assert ([c] + s)[1..] == s;
  }

  lemma {:induction false} LastReplace(s: string)
    ensures ReplacePairs(DropBracketEscapes(s), '\\', '\\', '\\') == UnescapeOnce(s)
    decreases |s|
  {
    if |s| == 1 {
      assert s[1..] == [];
    } else if |s| >= 2 {
      if s[0] == '\\' && IsSpecial(s[1]) {
        LastReplace(s[2..]);
        var tail := DropBracketEscapes(s[2..]);
        if s[1] == '\\' {
          assert s[1..] == ['\\'] + s[2..];
          if |s| >= 3 && (s[2] == '[' || s[2] == ']') {
            LastReplace(s[3..]);
            assert s[2..][1..] == s[3..] && s[1..][2..] == s[3..];
            assert tail == [s[2]] + DropBracketEscapes(s[3..]);
            assert DropBracketEscapes(s) == ['\\'] + tail;
            assert (['\\'] + tail)[1..] == tail;
          } else {
            assert DropBracketEscapes(s) == ['\\'] + (['\\'] + tail);
            assert (['\\'] + (['\\'] + tail))[2..] == tail;
          }
        } else {
          assert ([s[1]] + tail)[1..] == tail;
        }
      } else {
        LastReplace(s[1..]);
        var tail := DropBracketEscapes(s[1..]);
        assert ([s[0]] + tail)[1..] == tail;
        if s[0] == '\\' {
          assert s[1..][0] == s[1];
          assert tail[0] == s[1];
        }
      }
    }
  }

  /** The three replaces agree with the single scan on every string. */
  lemma UnescapeIsOneScan(s: string)
    ensures Unescape(s) == UnescapeOnce(s)
  {
    FirstTwoReplaces(s);
    LastReplace(s);
  }

  lemma {:induction false} UnescapeOnceUndoesEscape(s: string)
    ensures UnescapeOnce(Escape(s)) == s
  {
    if s != [] {
      UnescapeOnceUndoesEscape(s[1..]);
      var rest := Escape(s[1..]);
      if IsSpecial(s[0]) {
        assert (['\\', s[0]] + rest)[2..] == rest;
      } else {
        assert ([s[0]] + rest)[1..] == rest;
      }
      assert s == [s[0]] + s[1..];
    }
  }

  lemma UnescapeUndoesEscape(s: string)
    ensures Unescape(Escape(s)) == s
  {
    UnescapeIsOneScan(Escape(s));
    UnescapeOnceUndoesEscape(s);
  }

  // ---------------------------------------------------------------------------
  // Numbers

  function DigitValue(c: char): nat {
    if IsDigit(c) then c as int - '0' as int else 0
  }

  function DigitChar(d: nat): (c: char)
    requires d < 10
    ensures IsDigit(c) && DigitValue(c) == d
  {
    ('0' as int + d) as char
  }

  /** What a digit is, and what it denotes. */
  lemma DigitsAre(c: char, d: nat)
    requires d < 10
    ensures IsDigit(c) <==> c in "0123456789"
    ensures DigitValue("0123456789"[d]) == d
  {
    if IsDigit(c) {
      assert "0123456789"[c as int - '0' as int] == c;
    }
  }

  predicate AllDigits(s: string) {
    forall i | 0 <= i < |s| :: IsDigit(s[i])
  }

  /** The number denoted by a digit string; leading zeros are allowed, as in the source. */
  function Number(s: string): nat {
    if s == [] then 0 else 10 * Number(s[..|s| - 1]) + DigitValue(s[|s| - 1])
  }

  lemma NumberPush(front: string, d: nat)
    requires AllDigits(front) && d < 10
    ensures AllDigits(front + [DigitChar(d)]) && Number(front + [DigitChar(d)]) == 10 * Number(front) + d
  {
    assert (front + [DigitChar(d)])[..|front|] == front;
  }

  function Decimal(n: nat): (s: string)
    ensures s != [] && AllDigits(s) && Number(s) == n
  {
    var front := if n < 10 then [] else Decimal(n / 10);
    NumberPush(front, n % 10);
    front + [DigitChar(n % 10)]
  }

  // ---------------------------------------------------------------------------
  // The link pattern

  /** The lookbehind: an even number of backslashes, not preceded by another backslash. */
  ghost predicate EvenLookbehind(s: string, i: nat)
    requires i <= |s|
  {
    exists k: nat :: PrecededByExactly(s, i, 2 * k)
  }

  predicate PrecededByExactly(s: string, i: nat, n: nat)
    requires i <= |s|
  {
    && n <= i
    && (forall j | i - n <= j < i :: s[j] == '\\')
    && (i == n || s[i - n - 1] != '\\')
  }

  /** The inner group of the link text, repeated: an ordinary character, or an escape pair. */
  predicate IsLinkText(w: string) {
    || w == []
    || (!IsSpecial(w[0]) && IsLinkText(w[1..]))
    || (|w| >= 2 && w[0] == '\\' && IsSpecial(w[1]) && IsLinkText(w[2..]))
  }

  /** The link pattern, piece by piece, at `span.start`. */
  ghost predicate Matches(s: string, span: Span) {
    && span.start < span.close
    && span.close + 3 < span.end <= |s|
    && s[span.start] == '['
    && EvenLookbehind(s, span.start)
    && IsLinkText(s[span.start + 1..span.close])
    && s[span.close] == ']' && s[span.close + 1] == '('
    && AllDigits(s[span.close + 2..span.end - 1])
    && s[span.end - 1] == ')'
  }

  /** The number of backslashes directly before position `i`. */
  function BackslashRun(s: string, i: nat): nat
    requires i <= |s|
  {
    if i > 0 && s[i - 1] == '\\' then 1 + BackslashRun(s, i - 1) else 0
  }

  /** The run is the one exact count of backslashes. */
  lemma {:induction false} RunIsExact(s: string, i: nat, n: nat)
    requires i <= |s|
    ensures PrecededByExactly(s, i, n) <==> n == BackslashRun(s, i)
  {
    if i > 0 && s[i - 1] == '\\' && n > 0 {
      RunIsExact(s, i - 1, n - 1);
    }
  }

  lemma LookbehindIsParity(s: string, i: nat)
    requires i <= |s|
    ensures EvenLookbehind(s, i) <==> BackslashRun(s, i) % 2 == 0
  {
    var n := BackslashRun(s, i);
    if n % 2 == 0 {
      RunIsExact(s, i, 2 * (n / 2));
    }
    if k: nat :| PrecededByExactly(s, i, 2 * k) {
      RunIsExact(s, i, 2 * k);
    }
  }

  /** Position of the unescaped `]` that ends a link text starting at `i`. */
  function LinkTextEnd(s: string, i: nat): (r: Option<nat>)
    requires i <= |s|
    ensures r.Some? ==> i <= r.value < |s|
    decreases |s| - i
  {
    if i == |s| || s[i] == '[' then None
    else if s[i] == ']' then Some(i)
    else if s[i] == '\\' then
      if i + 1 < |s| && IsSpecial(s[i + 1]) then LinkTextEnd(s, i + 2) else None
    else LinkTextEnd(s, i + 1)
  }

  function DigitsEnd(s: string, i: nat): (j: nat)
    requires i <= |s|
    ensures i <= j <= |s|
    decreases |s| - i
  {
    if i < |s| && IsDigit(s[i]) then DigitsEnd(s, i + 1) else i
  }

  /** The match of the link pattern at position `i`, found without backtracking. */
  function LinkAt(s: string, i: nat): (r: Option<Span>)
    requires i < |s|
    ensures r.Some? ==> r.value.start == i < r.value.close && r.value.close + 3 < r.value.end <= |s|
  {
    if s[i] != '[' || BackslashRun(s, i) % 2 != 0 then None
    else
      match LinkTextEnd(s, i + 1)
      case None => None
      case Some(t) =>
        if t + 1 < |s| && s[t + 1] == '(' then
          var d := DigitsEnd(s, t + 2);
          if t + 2 < d < |s| && s[d] == ')' then Some(Span(i, t, d + 1)) else None
        else None
  }

  lemma {:induction false} LinkTextEndIsRegex(s: string, i: nat, t: nat)
    requires i <= t < |s|
    ensures LinkTextEnd(s, i) == Some(t) <==> IsLinkText(s[i..t]) && s[t] == ']'
    decreases t - i
  {
    if i < t {
      assert s[i..t][1..] == s[i + 1..t];
      if s[i] == '\\' {
        if i + 2 <= t {
          assert s[i..t][2..] == s[i + 2..t];
          LinkTextEndIsRegex(s, i + 2, t);
        }
      } else {
        LinkTextEndIsRegex(s, i + 1, t);
      }
    }
  }

  lemma {:induction false} DigitsEndIsRegex(s: string, i: nat, j: nat)
    requires i <= j < |s| && !IsDigit(s[j])
    ensures DigitsEnd(s, i) == j <==> AllDigits(s[i..j])
    decreases j - i
  {
    if i < j {
      assert s[i..j] == [s[i]] + s[i + 1..j];
      DigitsEndIsRegex(s, i + 1, j);
    }
  }

  /** The deterministic scanner finds exactly what the pattern describes. */
  lemma LinkAtIsTheRegex(s: string, span: Span)
    requires span.start < |s|
    ensures LinkAt(s, span.start) == Some(span) <==> Matches(s, span)
  {
    var i, t := span.start, span.close;
    LookbehindIsParity(s, i);
    if i < t < |s| {
      LinkTextEndIsRegex(s, i + 1, t);
    }
    if t + 2 < span.end - 1 < |s| && s[span.end - 1] == ')' {
      DigitsEndIsRegex(s, t + 2, span.end - 1);
    }
  }

  // ---------------------------------------------------------------------------
  // Parsing

  /** What one `exec` of the global pattern returns: the leftmost match that starts at or after `from`. */
  function FirstLink(s: string, from: nat): (r: Option<Span>)
    requires from <= |s|
    ensures r.Some? ==> from <= r.value.start < |s| && LinkAt(s, r.value.start) == r
    decreases |s| - from
  {
    if from == |s| then None
    else if LinkAt(s, from).Some? then LinkAt(s, from)
    else FirstLink(s, from + 1)
  }

  /** No link starts before the first one. */
  lemma {:induction false} FirstLinkIsLeftmost(s: string, from: nat, i: nat)
    requires from <= i < |s| && LinkAt(s, i).Some?
    ensures FirstLink(s, from).Some? && FirstLink(s, from).value.start <= i
    decreases i - from
  {
    if from < i {
      FirstLinkIsLeftmost(s, from + 1, i);
    }
  }

  /** The matches found by repeated `exec`, starting at `cur`. */
  function Spans(s: string, cur: nat): (spans: seq<Span>)
    requires cur <= |s|
    decreases |s| - cur
  {
    match FirstLink(s, cur)
    case None => []
    case Some(span) => [span] + Spans(s, span.end)
  }

  /** `spans` are links of `s` from `cur` on, without overlap and without a link starting in any gap. */
  ghost predicate IsScan(s: string, cur: nat, spans: seq<Span>)
    requires cur <= |s|
    decreases |spans|
  {
    if spans == [] then
      forall other | Matches(s, other) :: other.start < cur
    else
      && Matches(s, spans[0])
      && cur <= spans[0].start
      && (forall other | Matches(s, other) && cur <= other.start :: spans[0].start <= other.start)
      && IsScan(s, spans[0].end, spans[1..])
  }

  lemma FirstLinkIsFirstMatch(s: string, cur: nat, span: Span)
    requires cur <= |s|
    ensures FirstLink(s, cur) == Some(span) <==>
            && Matches(s, span) && cur <= span.start
            && forall other | Matches(s, other) && cur <= other.start :: span.start <= other.start
  {
    var first := FirstLink(s, cur);
    forall other | Matches(s, other) && cur <= other.start
      ensures first.Some? && first.value.start <= other.start
    {
      LinkAtIsTheRegex(s, other);
      FirstLinkIsLeftmost(s, cur, other.start);
    }
    if first.Some? {
      LinkAtIsTheRegex(s, first.value);
    }
    if span.start < |s| {
      LinkAtIsTheRegex(s, span);
    }
  }

  lemma NoFirstLink(s: string, cur: nat)
    requires cur <= |s|
    ensures FirstLink(s, cur) == None <==> forall other | Matches(s, other) :: other.start < cur
  {
    var first := FirstLink(s, cur);
    if first.Some? {
      LinkAtIsTheRegex(s, first.value);
    }
    forall other | Matches(s, other) && cur <= other.start
      ensures first.Some?
    {
      LinkAtIsTheRegex(s, other);
      FirstLinkIsLeftmost(s, cur, other.start);
    }
  }

  /** The scan is the only sequence of leftmost, non-overlapping links. */
  lemma {:induction false} SpansAreTheOnlyScan(s: string, cur: nat, spans: seq<Span>)
    requires cur <= |s|
    ensures IsScan(s, cur, spans) <==> spans == Spans(s, cur)
    decreases |spans|
  {
    hide FirstLink, LinkAt, Matches;
    NoFirstLink(s, cur);
    if spans != [] {
      FirstLinkIsFirstMatch(s, cur, spans[0]);
      if FirstLink(s, cur) == Some(spans[0]) {
        SpansAreTheOnlyScan(s, spans[0].end, spans[1..]);
        assert spans == [spans[0]] + spans[1..];
      }
    }
  }

  /** The components of the message from position `cur` on. */
  function ParseFrom(s: string, cur: nat): seq<Component>
    requires cur <= |s|
    decreases |s| - cur
  {
    match FirstLink(s, cur)
    case None => [Text(Unescape(s[cur..]))]
    case Some(span) => [Text(Unescape(s[cur..span.start])), LinkOf(s, span)] + ParseFrom(s, span.end)
  }

  function LinkOf(s: string, span: Span): Component
    requires span.start < span.close && span.close + 3 < span.end <= |s|
  {
    Link(Number(s[span.close + 2..span.end - 1]), Unescape(s[span.start + 1..span.close]))
  }

  function Parsed(s: string): seq<Component> {
    ParseFrom(s, 0)
  }

  /** `parseSarifPlainTextMessage`. */
  method ParseSarifPlainTextMessage(message: string) returns (results: seq<Component>)
    ensures results == Parsed(message)
  {
    hide Unescape, FirstLink, LinkAt, LinkOf;
    results := [];
    var curIndex := 0;
    var result := FirstLink(message, curIndex);
    while result.Some?
      invariant curIndex <= |message|
      invariant result == FirstLink(message, curIndex)
      invariant Parsed(message) == results + ParseFrom(message, curIndex)
      decreases |message| - curIndex
    {
      var span := result.value;
      var text := Text(Unescape(message[curIndex..span.start]));
      PushTwo(results, text, LinkOf(message, span), ParseFrom(message, span.end));
      results := results + [text];
      results := results + [LinkOf(message, span)];
      curIndex := span.end;
      result := FirstLink(message, curIndex);
    }
    results := results + [Text(Unescape(message[curIndex..]))];
  }

  lemma PushTwo<T>(acc: seq<T>, x: T, y: T, rest: seq<T>)
    ensures acc + ([x, y] + rest) == acc + [x] + [y] + rest
  {
  }

  /** The result of parsing, read off the scan: the k-th link is the k-th span, and the k-th text is what
      lies between the spans around it. */
  lemma {:induction false} ParsedReadsTheScan(s: string, cur: nat, spans: seq<Span>, k: nat)
    requires cur <= |s| && IsScan(s, cur, spans) && k <= |spans|
    ensures |ParseFrom(s, cur)| == 2 * |spans| + 1
    ensures k < |spans| ==> Matches(s, spans[k]) && ParseFrom(s, cur)[2 * k + 1] == LinkOf(s, spans[k])
    ensures var from := if k == 0 then cur else spans[k - 1].end;
            var to := if k == |spans| then |s| else spans[k].start;
            from <= to <= |s| && ParseFrom(s, cur)[2 * k] == Text(Unescape(s[from..to]))
    decreases |spans|
  {
    hide Unescape, FirstLink, LinkAt, LinkOf, Matches;
    SpansAreTheOnlyScan(s, cur, spans);
    if spans != [] {
      ParsedReadsTheScan(s, spans[0].end, spans[1..], if k == 0 then 0 else k - 1);
    } else {
      assert s[cur..] == s[cur..|s|];
    }
  }

  /** Text and links alternate, and the list begins and ends with text. */
  predicate Alternates(cs: seq<Component>) {
    && cs != []
    && cs[0].Text?
    && (|cs| > 1 ==> cs[1].Link? && Alternates(cs[2..]))
  }

  lemma {:induction false} ParseFromAlternates(s: string, cur: nat)
    requires cur <= |s|
    ensures Alternates(ParseFrom(s, cur))
    decreases |s| - cur
  {
    var first := FirstLink(s, cur);
    if first.Some? {
      ParseFromAlternates(s, first.value.end);
      assert ParseFrom(s, cur)[2..] == ParseFrom(s, first.value.end);
    }
  }

  /** Every parse result alternates between texts and links. */
  lemma ParsedAlternates(message: string, i: nat)
    requires i < |Parsed(message)|
    ensures |Parsed(message)| % 2 == 1
    ensures Parsed(message)[i].Link? <==> i % 2 == 1
  {
    ParseFromAlternates(message, 0);
    AlternatesByIndex(Parsed(message), i);
  }

  lemma {:induction false} AlternatesByIndex(cs: seq<Component>, i: nat)
    requires Alternates(cs) && i < |cs|
    ensures |cs| % 2 == 1
    ensures cs[i].Link? <==> i % 2 == 1
  {
    if |cs| > 1 {
      AlternatesByIndex(cs[2..], if i < 2 then 0 else i - 2);
    }
  }

  // ---------------------------------------------------------------------------
  // Printing, and its inverse

  function PrintLink(dest: nat, text: string): string {
    "[" + Escape(text) + "](" + Decimal(dest) + ")"
  }

  /** The message text for a list of components, as a SARIF producer writes it. */
  function Print(cs: seq<Component>): string {
    if cs == [] then ""
    else (match cs[0] case Text(t) => Escape(t) case Link(d, t) => PrintLink(d, t)) + Print(cs[1..])
  }

  /** The word `w` stands at position `i` of `s`. */
  predicate Has(s: string, i: nat, w: string) {
    i + |w| <= |s| && s[i..i + |w|] == w
  }

  lemma HasSplit(s: string, i: nat, a: string, b: string)
    requires Has(s, i, a + b)
    ensures Has(s, i, a) && Has(s, i + |a|, b)
  {
    assert s[i..i + |a|] == (a + b)[..|a|];
    assert s[i + |a|..i + |a| + |b|] == (a + b)[|a|..];
  }

  /** One escaped character keeps the backslash run even and starts no link. */
  lemma EscapedCharIsSkipped(s: string, i: nat, c: char)
    requires Has(s, i, EscapeChar(c)) && BackslashRun(s, i) % 2 == 0
    ensures BackslashRun(s, i + |EscapeChar(c)|) % 2 == 0
    ensures FirstLink(s, i) == FirstLink(s, i + |EscapeChar(c)|)
  {
    var w := EscapeChar(c);
    assert s[i] == s[i..i + |w|][0];
    if IsSpecial(c) {
      assert s[i + 1] == s[i..i + |w|][1];
      assert FirstLink(s, i) == FirstLink(s, i + 1);
    }
  }

  /** Escaped text keeps the backslash run even, and no link starts inside it. */
  lemma {:induction false} EscapedTextIsSkipped(s: string, i: nat, t: string)
    requires Has(s, i, Escape(t)) && BackslashRun(s, i) % 2 == 0
    ensures BackslashRun(s, i + |Escape(t)|) % 2 == 0
    ensures FirstLink(s, i) == FirstLink(s, i + |Escape(t)|)
    decreases |t|
  {
    hide BackslashRun, FirstLink, Has, EscapeChar;
    if t != [] {
      HasSplit(s, i, EscapeChar(t[0]), Escape(t[1..]));
      EscapedCharIsSkipped(s, i, t[0]);
      EscapedTextIsSkipped(s, i + |EscapeChar(t[0])|, t[1..]);
    }
  }

  lemma {:induction false} EscapedTextIsLinkText(t: string)
    ensures IsLinkText(Escape(t))
  {
    if t != [] {
      EscapedTextIsLinkText(t[1..]);
      var rest := Escape(t[1..]);
      if IsSpecial(t[0]) {
        assert (['\\', t[0]] + rest)[2..] == rest;
      } else {
        assert ([t[0]] + rest)[1..] == rest;
      }
    }
  }

  lemma HasSlice(s: string, i: nat, w: string)
    requires Has(s, i, w)
    ensures i + |w| <= |s| && s[i..i + |w|] == w
  {
  }

  lemma HasChar(s: string, i: nat, w: string, k: nat)
    requires Has(s, i, w) && k < |w|
    ensures s[i + k] == w[k]
  {
    assert s[i..i + |w|][k] == s[i + k];
  }

  /** The parts of a printed link, with `e` its text and `d` its digits. */
  lemma PrintedLinkParts(s: string, i: nat, e: string, d: string)
    requires Has(s, i, "[" + e + "](" + d + ")")
    ensures var close := i + 1 + |e|;
      && close + 2 + |d| < |s|
      && s[i] == '[' && s[i + 1..close] == e && s[close] == ']' && s[close + 1] == '('
      && s[close + 2..close + 2 + |d|] == d && s[close + 2 + |d|] == ')'
  {
    hide Has;
    var close := i + 1 + |e|;
    HasSplit(s, i, "[" + e + "](" + d, ")");
    HasChar(s, close + 2 + |d|, ")", 0);
    HasSplit(s, i, "[" + e + "](", d);
    HasSlice(s, close + 2, d);
    HasSplit(s, i, "[" + e, "](");
    HasChar(s, close, "](", 0);
    HasChar(s, close, "](", 1);
    HasSplit(s, i, "[", e);
    HasSlice(s, i + 1, e);
    HasChar(s, i, "[", 0);
    HasSlice(s, close + 2 + |d|, ")");
  }

  /** A printed link is matched where it stands. */
  lemma PrintedLinkMatches(s: string, i: nat, dest: nat, text: string)
    requires Has(s, i, PrintLink(dest, text)) && BackslashRun(s, i) % 2 == 0
    ensures var span := Span(i, i + 1 + |Escape(text)|, i + |PrintLink(dest, text)|);
            FirstLink(s, i) == Some(span) && LinkOf(s, span) == Link(dest, text)
  {
    hide Unescape, IsLinkText, BackslashRun, LinkAt, AllDigits, Has, IsSpecial, Escape, Decimal;
    var e, d := Escape(text), Decimal(dest);
    var span := Span(i, i + 1 + |e|, i + |e| + |d| + 4);
    assert PrintLink(dest, text) == "[" + e + "](" + d + ")";
    EscapedTextIsLinkText(text);
    PrintedLinkParts(s, i, e, d);
    LookbehindIsParity(s, i);
    LinkAtIsTheRegex(s, span);
    UnescapeUndoesEscape(text);
  }

  /** Escaped text at the end of a message is its last component. */
  lemma ParsePrintedText(s: string, i: nat, text: string)
    requires Has(s, i, Escape(text)) && i + |Escape(text)| == |s| && BackslashRun(s, i) % 2 == 0
    ensures ParseFrom(s, i) == [Text(text)]
  {
    hide Unescape, Escape, BackslashRun, LinkAt, LinkOf, Has;
    EscapedTextIsSkipped(s, i, text);
    UnescapeUndoesEscape(text);
    HasSlice(s, i, Escape(text));
    assert s[i..] == s[i..|s|];
  }

  /** Escaped text and a printed link are the next two components. */
  lemma ParsePrintedPair(s: string, i: nat, text: string, dest: nat, linkText: string)
    requires Has(s, i, Escape(text)) && BackslashRun(s, i) % 2 == 0
    requires Has(s, i + |Escape(text)|, PrintLink(dest, linkText))
    ensures var k := i + |Escape(text)| + |PrintLink(dest, linkText)|;
      && k <= |s| && BackslashRun(s, k) % 2 == 0
      && ParseFrom(s, i) == [Text(text), Link(dest, linkText)] + ParseFrom(s, k)
  {
    hide Unescape, Escape, PrintLink, BackslashRun, FirstLink, LinkAt, LinkOf, Has;
    var j := i + |Escape(text)|;
    EscapedTextIsSkipped(s, i, text);
    UnescapeUndoesEscape(text);
    HasSlice(s, i, Escape(text));
    PrintedLinkMatches(s, j, dest, linkText);
    PrintedLinkEnds(s, j, dest, linkText);
    HasSlice(s, j, PrintLink(dest, linkText));
  }

  lemma {:induction false} ParsePrintedFrom(s: string, i: nat, cs: seq<Component>)
    requires Has(s, i, Print(cs)) && i + |Print(cs)| == |s|
    requires Alternates(cs) && BackslashRun(s, i) % 2 == 0
    ensures ParseFrom(s, i) == cs
    decreases |cs|
  {
    hide Escape, PrintLink, BackslashRun, ParseFrom, Has;
    var text := cs[0].text;
    HasSplit(s, i, Escape(text), Print(cs[1..]));
    if |cs| == 1 {
      ParsePrintedText(s, i, text);
    } else {
      var j := i + |Escape(text)|;
      var Link(dest, linkText) := cs[1];
      assert cs[1..][1..] == cs[2..];
      HasSplit(s, j, PrintLink(dest, linkText), Print(cs[2..]));
      ParsePrintedPair(s, i, text, dest, linkText);
      ParsePrintedFrom(s, j + |PrintLink(dest, linkText)|, cs[2..]);
      assert cs == [cs[0], cs[1]] + cs[2..];
    }
  }

  lemma PrintedLinkEnds(s: string, i: nat, dest: nat, text: string)
    requires Has(s, i, PrintLink(dest, text))
    ensures BackslashRun(s, i + |PrintLink(dest, text)|) == 0
  {
    var w := PrintLink(dest, text);
    assert s[i..i + |w|][|w| - 1] == s[i + |w| - 1];
  }

  /** Parsing undoes printing. */
  lemma ParsingUndoesPrinting(cs: seq<Component>)
    requires Alternates(cs)
    ensures Parsed(Print(cs)) == cs
  {
    ParsePrintedFrom(Print(cs), 0, cs);
  }

  /** Every message has a canonical spelling, with the same parse. */
  lemma CanonicalSpelling(message: string)
    ensures Parsed(Print(Parsed(message))) == Parsed(message)
  {
    ParseFromAlternates(message, 0);
    ParsingUndoesPrinting(Parsed(message));
  }
}
