/** Expansion of rule references in TextMate grammars (extensions/ql-vscode/gulpfile.ts/textmate.ts).

    A regular expression is a sequence of tokens: literal text, or a reference `(?#name)` to a rule.  The
    build replaces one occurrence of each key per round until nothing changes.  The specification is the
    recursive expansion `Expand`; `StopsIffAcyclic` says exactly when the rounds come to an end. */
module TextMate {
  import opened Wrappers

  datatype Token = Lit(text: string) | Ref(name: string)

  type Text = seq<Token>

  type Rules = map<string, Text>

  /** `(?:body)` */
  function Group(body: Text): Text {
    [Lit("(?:")] + body + [Lit(")")]
  }

  predicate Known(tok: Token, rules: Rules) {
    tok.Ref? && tok.name in rules
  }

  // ---------------------------------------------------------------------------
  // References that can be followed to an end

  /** Following references from `tok` comes to an end after at most `n` of them. */
  predicate GroundedToken(tok: Token, rules: Rules, n: nat)
    decreases n, 1
  {
    Known(tok, rules) ==> n > 0 && Grounded(rules[tok.name], rules, n - 1)
  }

  predicate Grounded(t: Text, rules: Rules, n: nat)
    decreases n, 2
  {
    forall tok | tok in t :: GroundedToken(tok, rules, n)
  }

  /** The references in `t` lead into no cycle.  There are only so many rules, so this deep is deep enough. */
  predicate Acyclic(t: Text, rules: Rules) {
    Grounded(t, rules, |rules|)
  }

  lemma {:induction false} DeeperToken(tok: Token, rules: Rules, n: nat)
    requires GroundedToken(tok, rules, n)
    ensures GroundedToken(tok, rules, n + 1)
    decreases n
  {
    if Known(tok, rules) {
      forall other | other in rules[tok.name]
        ensures GroundedToken(other, rules, n)
      {
        DeeperToken(other, rules, n - 1);
      }
    }
  }

  lemma {:induction false} DeeperTokens(tok: Token, rules: Rules, n: nat, m: nat)
    requires GroundedToken(tok, rules, n) && n <= m
    ensures GroundedToken(tok, rules, m)
    decreases m - n
  {
    if n < m {
      DeeperToken(tok, rules, n);
      DeeperTokens(tok, rules, n + 1, m);
    }
  }

  lemma Deeper(t: Text, rules: Rules, n: nat, m: nat)
    requires Grounded(t, rules, n) && n <= m
    ensures Grounded(t, rules, m)
  {
    forall tok | tok in t
      ensures GroundedToken(tok, rules, m)
    {
      DeeperTokens(tok, rules, n, m);
    }
  }

  /** A reference that needs depth `n` passes through `n` different rules. */
  lemma {:induction false} DepthNeedsRules(tok: Token, rules: Rules, n: nat) returns (visited: set<string>)
    requires n > 0 && GroundedToken(tok, rules, n) && !GroundedToken(tok, rules, n - 1)
    ensures visited <= rules.Keys && |visited| == n <= |rules|
    ensures forall name | name in visited :: GroundedToken(Ref(name), rules, n)
    decreases n
  {
    if n == 1 {
      visited := {tok.name};
      assert tok == Ref(tok.name);
    } else {
      var next :| next in rules[tok.name] && !GroundedToken(next, rules, n - 2);
      var rest := DepthNeedsRules(next, rules, n - 1);
      assert tok == Ref(tok.name) && tok.name !in rest;
      visited := rest + {tok.name};
      forall name | name in rest
        ensures GroundedToken(Ref(name), rules, n)
      {
        DeeperToken(Ref(name), rules, n - 1);
      }
    }
    SubsetSize(visited, rules.Keys);
    assert |rules.Keys| == |rules|;
  }

  lemma SubsetSize<T>(a: set<T>, b: set<T>)
    requires a <= b
    ensures |a| <= |b|
  {
    assert b == a + (b - a);
  }

  lemma {:induction false} DepthIsBounded(tok: Token, rules: Rules, n: nat)
    requires GroundedToken(tok, rules, n)
    ensures GroundedToken(tok, rules, |rules|)
    decreases n
  {
    if n <= |rules| {
      DeeperTokens(tok, rules, n, |rules|);
    } else {
      if !GroundedToken(tok, rules, n - 1) {
        var visited := DepthNeedsRules(tok, rules, n);
        assert false;
      }
      DepthIsBounded(tok, rules, n - 1);
    }
  }

  /** Being grounded at any depth is the same as being grounded at the number of rules. */
  lemma GroundedIsAcyclic(t: Text, rules: Rules, n: nat)
    requires Grounded(t, rules, n)
    ensures Acyclic(t, rules)
  {
    forall tok | tok in t
      ensures GroundedToken(tok, rules, |rules|)
    {
      DepthIsBounded(tok, rules, n);
    }
  }

  /** A ranking of the rules, in which every rule refers only to smaller ones, makes everything acyclic. */
  lemma {:induction false} RankedIsGrounded(t: Text, rules: Rules, rank: map<string, nat>, n: nat)
    requires rules.Keys <= rank.Keys
    requires forall name, tok | name in rules && tok in rules[name] && Known(tok, rules) ::
               rank[tok.name] < rank[name]
    requires forall tok | tok in t && Known(tok, rules) :: rank[tok.name] < n
    ensures Grounded(t, rules, n)
    decreases n
  {
    forall tok | tok in t && Known(tok, rules)
      ensures GroundedToken(tok, rules, n)
    {
      RankedIsGrounded(rules[tok.name], rules, rank, n - 1);
    }
  }

  // ---------------------------------------------------------------------------
  // Full expansion

  /** Replace every reference by its group, recursively. */
  function ExpandToken(tok: Token, rules: Rules, n: nat): Text
    requires GroundedToken(tok, rules, n)
    decreases n, 0
  {
    if Known(tok, rules) then Group(ExpandTo(rules[tok.name], rules, n - 1)) else [tok]
  }

  function ExpandTo(t: Text, rules: Rules, n: nat): Text
    requires Grounded(t, rules, n)
    decreases n, 1, |t|
  {
    if t == [] then [] else ExpandToken(t[0], rules, n) + ExpandTo(t[1..], rules, n)
  }

  function Expand(t: Text, rules: Rules): Text
    requires Acyclic(t, rules)
  {
    ExpandTo(t, rules, |rules|)
  }

  /** The number of references met during full expansion. */
  function TokenWeight(tok: Token, rules: Rules, n: nat): nat
    requires GroundedToken(tok, rules, n)
    decreases n, 0
  {
    if Known(tok, rules) then 1 + Weight(rules[tok.name], rules, n - 1) else 0
  }

  function Weight(t: Text, rules: Rules, n: nat): nat
    requires Grounded(t, rules, n)
    decreases n, 1, |t|
  {
    if t == [] then 0 else TokenWeight(t[0], rules, n) + Weight(t[1..], rules, n)
  }

  /** Extra depth changes neither the expansion nor the weight. */
  lemma {:induction false} DepthIsIrrelevant(t: Text, rules: Rules, n: nat, m: nat)
    requires Grounded(t, rules, n) && n <= m
    ensures Grounded(t, rules, m)
    ensures ExpandTo(t, rules, n) == ExpandTo(t, rules, m)
    ensures Weight(t, rules, n) == Weight(t, rules, m)
    decreases n, 1, |t|
  {
    Deeper(t, rules, n, m);
    if t != [] {
      assert t[0] in t;
      TokenDepthIsIrrelevant(t[0], rules, n, m);
      DepthIsIrrelevant(t[1..], rules, n, m);
    }
  }

  lemma {:induction false} TokenDepthIsIrrelevant(tok: Token, rules: Rules, n: nat, m: nat)
    requires GroundedToken(tok, rules, n) && n <= m
    ensures GroundedToken(tok, rules, m)
    ensures ExpandToken(tok, rules, n) == ExpandToken(tok, rules, m)
    ensures TokenWeight(tok, rules, n) == TokenWeight(tok, rules, m)
    decreases n, 0
  {
    if Known(tok, rules) {
      DepthIsIrrelevant(rules[tok.name], rules, n - 1, m - 1);
    }
  }

  lemma {:induction false} ExpandConcat(a: Text, b: Text, rules: Rules, n: nat)
    requires Grounded(a, rules, n) && Grounded(b, rules, n)
    ensures Grounded(a + b, rules, n)
    ensures ExpandTo(a + b, rules, n) == ExpandTo(a, rules, n) + ExpandTo(b, rules, n)
    ensures Weight(a + b, rules, n) == Weight(a, rules, n) + Weight(b, rules, n)
    decreases |a|
  {
    if a == [] {
      assert a + b == b;
    } else {
      assert a[0] in a;
      assert (a + b)[1..] == a[1..] + b;
      ExpandConcat(a[1..], b, rules, n);
    }
  }

  lemma ExpandGroup(body: Text, rules: Rules, n: nat)
    requires Grounded(body, rules, n)
    ensures Grounded(Group(body), rules, n)
    ensures ExpandTo(Group(body), rules, n) == Group(ExpandTo(body, rules, n))
    ensures Weight(Group(body), rules, n) == Weight(body, rules, n)
  {
    var open, close := [Lit("(?:")], [Lit(")")];
    ExpandLiteral("(?:", rules, n);
    ExpandLiteral(")", rules, n);
    ExpandConcat(open, body, rules, n);
    ExpandConcat(open + body, close, rules, n);
  }

  lemma ExpandLiteral(text: string, rules: Rules, n: nat)
    ensures Grounded([Lit(text)], rules, n)
    ensures ExpandTo([Lit(text)], rules, n) == [Lit(text)] && Weight([Lit(text)], rules, n) == 0
  {
  }

  lemma ExpandOne(tok: Token, rules: Rules, n: nat)
    requires GroundedToken(tok, rules, n)
    ensures Grounded([tok], rules, n) && ExpandTo([tok], rules, n) == ExpandToken(tok, rules, n)
  {
    hide ExpandToken;
    var t := [tok];
    assert t[1..] == [] && t[0] == tok;
    assert ExpandTo([], rules, n) == [];
  }

  /** The expansion is determined by this: it works token by token, a known reference becomes the expansion of its rule
      in a group, and everything else stays. */
  lemma ExpandIs(a: Text, b: Text, tok: Token, rules: Rules)
    requires Acyclic(a, rules) && Acyclic(b, rules) && GroundedToken(tok, rules, |rules|)
    ensures Acyclic(a + b, rules) && Expand(a + b, rules) == Expand(a, rules) + Expand(b, rules)
    ensures Acyclic([tok], rules)
    ensures Known(tok, rules) ==>
              && Acyclic(rules[tok.name], rules)
              && Expand([tok], rules) == [Lit("(?:")] + Expand(rules[tok.name], rules) + [Lit(")")]
    ensures !Known(tok, rules) ==> Expand([tok], rules) == [tok]
  {
    ExpandConcat(a, b, rules, |rules|);
    ExpandOne(tok, rules, |rules|);
    if Known(tok, rules) {
      DepthIsIrrelevant(rules[tok.name], rules, |rules| - 1, |rules|);
    }
  }

  predicate HasNoKnown(t: Text, rules: Rules) {
    forall tok | tok in t :: !Known(tok, rules)
  }

  lemma {:induction false} NothingToExpand(t: Text, rules: Rules, n: nat)
    requires HasNoKnown(t, rules)
    ensures Grounded(t, rules, n) && ExpandTo(t, rules, n) == t
    decreases |t|
  {
    if t != [] {
      NothingToExpand(t[1..], rules, n);
      assert t == [t[0]] + t[1..];
    }
  }

  lemma {:induction false} ExpansionHasNoKnown(t: Text, rules: Rules, n: nat)
    requires Grounded(t, rules, n)
    ensures HasNoKnown(ExpandTo(t, rules, n), rules)
    decreases n, |t|
  {
    if t != [] {
      assert t[0] in t;
      if Known(t[0], rules) {
        ExpansionHasNoKnown(rules[t[0].name], rules, n - 1);
      }
      ExpansionHasNoKnown(t[1..], rules, n);
    }
  }

  // ---------------------------------------------------------------------------
  // The replacement loop

  /** `result.replace("(?#key)", "(?:body)")`: only the first occurrence. */
  function ReplaceFirst(t: Text, key: string, body: Text): Text {
    if t == [] then []
    else if t[0] == Ref(key) then Group(body) + t[1..]
    else [t[0]] + ReplaceFirst(t[1..], key, body)
  }

  lemma {:induction false} ReplaceFirstGrows(t: Text, key: string, body: Text)
    ensures if Ref(key) in t then |ReplaceFirst(t, key, body)| > |t| else ReplaceFirst(t, key, body) == t
    decreases |t|
  {
    if t != [] {
      ReplaceFirstGrows(t[1..], key, body);
      assert t == [t[0]] + t[1..];
    }
  }

  /** One replacement preserves the meaning and removes exactly one reference from what is left to do. */
  lemma {:induction false} ReplaceFirstPreserves(t: Text, key: string, rules: Rules, n: nat)
    requires key in rules && Grounded(t, rules, n)
    ensures var r := ReplaceFirst(t, key, rules[key]);
      && Grounded(r, rules, n)
      && ExpandTo(r, rules, n) == ExpandTo(t, rules, n)
      && Weight(t, rules, n) == Weight(r, rules, n) + (if Ref(key) in t then 1 else 0)
    decreases |t|
  {
    if t != [] {
      var r := ReplaceFirst(t, key, rules[key]);
      assert t[0] in t;
      if t[0] == Ref(key) {
        var body := rules[key];
        DepthIsIrrelevant(body, rules, n - 1, n);
        ExpandGroup(body, rules, n);
        ExpandConcat(Group(body), t[1..], rules, n);
      } else {
        ReplaceFirstPreserves(t[1..], key, rules, n);
        var r' := ReplaceFirst(t[1..], key, rules[key]);
        ExpandConcat([t[0]], r', rules, n);
        ExpandConcat([t[0]], t[1..], rules, n);
        assert t == [t[0]] + t[1..];
      }
    }
  }

  /** One pass over the keys. */
  function Round(t: Text, keys: seq<string>, rules: Rules): Text
    requires forall key | key in keys :: key in rules
  {
    if keys == [] then t
    else
      var front, last := keys[..|keys| - 1], keys[|keys| - 1];
      ReplaceFirst(Round(t, front, rules), last, rules[last])
  }

  lemma {:induction false} RoundPreserves(t: Text, keys: seq<string>, rules: Rules, n: nat)
    requires forall key | key in keys :: key in rules
    requires Grounded(t, rules, n)
    ensures var r := Round(t, keys, rules);
      && Grounded(r, rules, n)
      && ExpandTo(r, rules, n) == ExpandTo(t, rules, n)
      && Weight(r, rules, n) + (if r == t then 0 else 1) <= Weight(t, rules, n)
    decreases |keys|
  {
    if keys != [] {
      var front, last := keys[..|keys| - 1], keys[|keys| - 1];
      assert last in keys;
      RoundPreserves(t, front, rules, n);
      var r := Round(t, front, rules);
      ReplaceFirstPreserves(r, last, rules, n);
      ReplaceFirstGrows(r, last, rules[last]);
    }
  }

  /** A round that changes nothing has found no reference to replace. */
  lemma {:induction false} QuietRound(t: Text, keys: seq<string>, rules: Rules)
    requires forall key | key in keys :: key in rules
    ensures |Round(t, keys, rules)| >= |t|
    ensures |Round(t, keys, rules)| == |t| ==>
              Round(t, keys, rules) == t && forall key | key in keys :: Ref(key) !in t
    decreases |keys|
  {
    if keys != [] {
      var front, last := keys[..|keys| - 1], keys[|keys| - 1];
      assert last in keys;
      QuietRound(t, front, rules);
      ReplaceFirstGrows(Round(t, front, rules), last, rules[last]);
      assert forall key | key in keys :: key in front || key == last;
    }
  }

  /** `replaceReferencesWithStrings`: the loop ends, and yields the full expansion whatever the order of the keys. */
  method ReplaceReferencesWithStrings(value: Text, keys: seq<string>, rules: Rules) returns (result: Text)
    requires forall key :: key in keys <==> key in rules
    requires Acyclic(value, rules)
    ensures result == Expand(value, rules)
    ensures HasNoKnown(result, rules)
  {
    ghost var n := |rules|;
    result := value;
    while true
      invariant Grounded(result, rules, n) && ExpandTo(result, rules, n) == Expand(value, rules)
      decreases Weight(result, rules, n)
    {
      hide ExpandTo, Weight, Grounded;
      var original := result;
      for k := 0 to |keys|
        invariant result == Round(original, keys[..k], rules)
      {
        result := ReplaceFirst(result, keys[k], rules[keys[k]]);
        assert keys[..k + 1][..k] == keys[..k];
      }
      assert keys[..|keys|] == keys;
      RoundPreserves(original, keys, rules, n);
      if result == original {
        QuietRound(original, keys, rules);
        NothingToExpand(result, rules, n);
        return;
      }
    }
  }

  // ---------------------------------------------------------------------------
  // When the loop ends

  function Rounds(t: Text, keys: seq<string>, rules: Rules, k: nat): Text
    requires forall key | key in keys :: key in rules
    decreases k
  {
    if k == 0 then t else Rounds(Round(t, keys, rules), keys, rules, k - 1)
  }

  /** The loop leaves after `k` rounds that changed something. */
  predicate StopsAfter(t: Text, keys: seq<string>, rules: Rules, k: nat)
    requires forall key | key in keys :: key in rules
  {
    Round(Rounds(t, keys, rules, k), keys, rules) == Rounds(t, keys, rules, k)
  }

  lemma {:induction false} GroundedStops(t: Text, keys: seq<string>, rules: Rules, n: nat) returns (k: nat)
    requires forall key | key in keys :: key in rules
    requires Grounded(t, rules, n)
    ensures StopsAfter(t, keys, rules, k) && k <= Weight(t, rules, n)
    decreases Weight(t, rules, n)
  {
    hide Grounded, Weight;
    RoundPreserves(t, keys, rules, n);
    if Round(t, keys, rules) == t {
      k := 0;
    } else {
      k := GroundedStops(Round(t, keys, rules), keys, rules, n);
      k := k + 1;
    }
  }

  /** If the text after a replacement is grounded, so was the text before it, one step deeper. */
  lemma {:induction false} GroundedBefore(t: Text, key: string, rules: Rules, n: nat)
    requires key in rules && Grounded(ReplaceFirst(t, key, rules[key]), rules, n)
    ensures Grounded(t, rules, n + 1)
    decreases |t|
  {
    if t != [] {
      var r := ReplaceFirst(t, key, rules[key]);
      if t[0] == Ref(key) {
        assert forall tok | tok in rules[key] :: tok in r;
        assert Grounded(rules[key], rules, n);
        assert forall tok | tok in t[1..] :: tok in r;
        Deeper(t[1..], rules, n, n + 1);
        assert GroundedToken(t[0], rules, n + 1);
      } else {
        assert t[0] in r;
        DeeperToken(t[0], rules, n);
        assert forall tok | tok in ReplaceFirst(t[1..], key, rules[key]) :: tok in r;
        GroundedBefore(t[1..], key, rules, n);
      }
      forall tok | tok in t
        ensures GroundedToken(tok, rules, n + 1)
      {
        assert tok == t[0] || tok in t[1..];
      }
    }
  }

  lemma {:induction false} GroundedBeforeRound(t: Text, keys: seq<string>, rules: Rules, n: nat)
    requires forall key | key in keys :: key in rules
    requires Grounded(Round(t, keys, rules), rules, n)
    ensures Grounded(t, rules, n + |keys|)
    decreases |keys|
  {
    if keys != [] {
      var front, last := keys[..|keys| - 1], keys[|keys| - 1];
      assert last in keys;
      GroundedBefore(Round(t, front, rules), last, rules, n);
      GroundedBeforeRound(t, front, rules, n + 1);
    }
  }

  lemma {:induction false} StoppedIsGrounded(t: Text, keys: seq<string>, rules: Rules, k: nat) returns (n: nat)
    requires forall key :: key in keys <==> key in rules
    requires StopsAfter(t, keys, rules, k)
    ensures Grounded(t, rules, n)
    decreases k
  {
    if k == 0 {
      QuietRound(t, keys, rules);
      NothingToExpand(t, rules, 0);
      n := 0;
    } else {
      n := StoppedIsGrounded(Round(t, keys, rules), keys, rules, k - 1);
      GroundedBeforeRound(t, keys, rules, n);
      n := n + |keys|;
    }
  }

  /** The replacement loop ends exactly when no reference in the text leads into a cycle. */
  lemma StopsIffAcyclic(t: Text, keys: seq<string>, rules: Rules)
    requires forall key :: key in keys <==> key in rules
    ensures (exists k: nat :: StopsAfter(t, keys, rules, k)) <==> Acyclic(t, rules)
  {
    if k: nat :| StopsAfter(t, keys, rules, k) {
      var n := StoppedIsGrounded(t, keys, rules, k);
      GroundedIsAcyclic(t, rules, n);
    }
    if Acyclic(t, rules) {
      var k := GroundedStops(t, keys, rules, |rules|);
    }
  }

  // ---------------------------------------------------------------------------
  // The pass over all rules of a grammar

  /** The `include` entry of a pattern: absent, `null`, a rule of this grammar, or anything else. */
  datatype Include = Absent | Null | Local(name: string) | Other(text: string)

  /** The match patterns of a rule. */
  datatype Matches = Matches(begin: Option<Text>, end: Option<Text>, matchText: Option<Text>, whileText: Option<Text>)

  class Rule {
    var begin: Option<Text>
    var end: Option<Text>
    var matchText: Option<Text>
    var whileText: Option<Text>
    const patterns: Option<seq<Include>>

    constructor (m: Matches, patterns: Option<seq<Include>>)
      ensures AllMatches() == m && this.patterns == patterns
    {
      begin, end, matchText, whileText := m.begin, m.end, m.matchText, m.whileText;
      this.patterns := patterns;
    }

    function AllMatches(): Matches
      reads this
    {
      Matches(begin, end, matchText, whileText)
    }

    /** `visitAllMatchesInRule` with reference replacement as its action */
    method ReplaceInMatches(keys: seq<string>, rules: Rules)
      requires forall key :: key in keys <==> key in rules
      requires AcyclicMatches(AllMatches(), rules)
      modifies this
      ensures AllMatches() == ExpandMatches(old(AllMatches()), rules)
    {
      begin := ReplaceField(begin, keys, rules);
      end := ReplaceField(end, keys, rules);
      matchText := ReplaceField(matchText, keys, rules);
      whileText := ReplaceField(whileText, keys, rules);
    }
  }

  function Alternatives(patterns: seq<Include>): seq<Token> {
    if patterns == [] then []
    else
      (match patterns[0]
       case Absent => [Lit("(?undefined)")]
       case Null => []
       case Local(name) => [Ref(name)]
       case Other(text) => [Lit("(?" + text + ")")])
      + Alternatives(patterns[1..])
  }

  function Join(alternatives: seq<Token>): Text {
    if |alternatives| <= 1 then alternatives
    else [alternatives[0], Lit("|")] + Join(alternatives[1..])
  }

  /** `getNodeMatchText` */
  function NodeMatchText(rule: Rule): Text
    reads rule
  {
    if rule.matchText.Some? then rule.matchText.value
    else if rule.patterns.Some? then Group(Join(Alternatives(rule.patterns.value)))
    else []
  }

  /** How many of the first `i` patterns have an `include` that is not `null` */
  function Kept(patterns: seq<Include>, i: nat): (n: nat)
    requires i <= |patterns|
    ensures n <= i
  {
    if i == 0 then 0 else Kept(patterns, i - 1) + (if patterns[i - 1] == Null then 0 else 1)
  }

  lemma {:induction false} KeptFront(patterns: seq<Include>, i: nat)
    requires 0 < i <= |patterns|
    ensures Kept(patterns, i) == (if patterns[0] == Null then 0 else 1) + Kept(patterns[1..], i - 1)
    decreases i
  {
    if i > 1 {
      KeptFront(patterns, i - 1);
    }
  }

  /** An include that is not `null` gives the alternative whose place is the number of such includes before it, and
      there is no other alternative. */
  lemma {:induction false} AlternativeAt(patterns: seq<Include>, i: nat)
    requires i < |patterns|
    ensures var a := Alternatives(patterns);
      && |a| == Kept(patterns, |patterns|)
      && (patterns[i] != Null ==>
            Kept(patterns, i) < |a| &&
            a[Kept(patterns, i)] == match patterns[i]
                                    case Local(name) => Ref(name)
                                    case Other(text) => Lit("(?" + text + ")")
                                    case _ => Lit("(?undefined)"))
    decreases |patterns|
  {
    KeptFront(patterns, |patterns|);
    if i > 0 {
      KeptFront(patterns, i);
      AlternativeAt(patterns[1..], i - 1);
    } else if |patterns| > 1 {
      AlternativeAt(patterns[1..], 0);
    }
  }

  lemma {:induction false} JoinAt(alternatives: seq<Token>, k: nat)
    ensures var t := Join(alternatives);
      && |t| == (if alternatives == [] then 0 else 2 * |alternatives| - 1)
      && (k < |alternatives| ==> t[2 * k] == alternatives[k])
      && (k + 1 < |alternatives| ==> t[2 * k + 1] == Lit("|"))
    decreases |alternatives|
  {
    if |alternatives| > 1 {
      JoinAt(alternatives[1..], if k == 0 then 0 else k - 1);
    }
  }

  /** Alternatives in a group, by index. */
  lemma GroupAt(alternatives: seq<Token>, k: nat)
    ensures var t, n := Group(Join(alternatives)), |alternatives|;
      && |t| == (if n == 0 then 2 else 2 * n + 1)
      && t[0] == Lit("(?:") && t[|t| - 1] == Lit(")")
      && (k < n ==> t[2 * k + 1] == alternatives[k])
      && (k + 1 < n ==> t[2 * k + 2] == Lit("|"))
  {
    hide Join;
    JoinAt(alternatives, k);
  }

  lemma TextOfPatterns(rule: Rule)
    requires rule.matchText.None? && rule.patterns.Some?
    ensures NodeMatchText(rule) == Group(Join(Alternatives(rule.patterns.value)))
    ensures |Alternatives(rule.patterns.value)| == Kept(rule.patterns.value, |rule.patterns.value|)
  {
    hide Group, Join;
    var patterns := rule.patterns.value;
    if patterns != [] {
      AlternativeAt(patterns, 0);
    }
  }

  /** The text of a rule: its `match` if it has one, and nothing if it has no patterns either. */
  lemma NodeMatchTextIs(rule: Rule)
    ensures rule.matchText.Some? ==> NodeMatchText(rule) == rule.matchText.value
    ensures rule.matchText.None? && rule.patterns.None? ==> NodeMatchText(rule) == []
  {
  }

  /** Otherwise, with `n` includes that are not `null`, it is a group: these includes in their order, at the odd places,
      with a bar between any two. */
  lemma NodeMatchTextAt(rule: Rule, k: nat)
    requires rule.matchText.None? && rule.patterns.Some?
    ensures var t, patterns := NodeMatchText(rule), rule.patterns.value;
      var n := Kept(patterns, |patterns|);
      && |t| == (if n == 0 then 2 else 2 * n + 1)
      && t[0] == Lit("(?:") && t[|t| - 1] == Lit(")")
      && (k + 1 < n ==> t[2 * k + 2] == Lit("|"))
      && (k < |patterns| && patterns[k] != Null ==>
            && 2 * Kept(patterns, k) + 1 < |t|
            && t[2 * Kept(patterns, k) + 1] == match patterns[k]
                                               case Local(name) => Ref(name)
                                               case Other(text) => Lit("(?" + text + ")")
                                               case _ => Lit("(?undefined)"))
  {
    hide Alternatives, Join, Kept, Group, NodeMatchText;
    var patterns := rule.patterns.value;
    TextOfPatterns(rule);
    GroupAt(Alternatives(patterns), k);
    if k < |patterns| {
      AlternativeAt(patterns, k);
      GroupAt(Alternatives(patterns), Kept(patterns, k));
    }
  }

  /** `gatherMatchTextForRules`: the match texts as they are before any reference has been replaced. */
  function Gather(repository: map<string, Rule>): Rules
    reads repository.Values
  {
    map name | name in repository :: NodeMatchText(repository[name])
  }

  /** Every rule of the repository, and nothing else, has its text gathered. */
  lemma GatherIs(repository: map<string, Rule>)
    ensures Gather(repository).Keys == repository.Keys
    ensures forall name | name in repository :: Gather(repository)[name] == NodeMatchText(repository[name])
  {
    hide NodeMatchText;
  }

  predicate AcyclicField(field: Option<Text>, rules: Rules) {
    field.Some? ==> Acyclic(field.value, rules)
  }

  predicate AcyclicMatches(m: Matches, rules: Rules) {
    && AcyclicField(m.begin, rules) && AcyclicField(m.end, rules)
    && AcyclicField(m.matchText, rules) && AcyclicField(m.whileText, rules)
  }

  function ExpandField(field: Option<Text>, rules: Rules): Option<Text>
    requires AcyclicField(field, rules)
  {
    if field.Some? then Some(Expand(field.value, rules)) else None
  }

  function ExpandMatches(m: Matches, rules: Rules): Matches
    requires AcyclicMatches(m, rules)
  {
    Matches(ExpandField(m.begin, rules), ExpandField(m.end, rules),
            ExpandField(m.matchText, rules), ExpandField(m.whileText, rules))
  }

  lemma ExpandFieldTwice(field: Option<Text>, rules: Rules)
    requires AcyclicField(field, rules)
    ensures AcyclicField(ExpandField(field, rules), rules)
    ensures ExpandField(ExpandField(field, rules), rules) == ExpandField(field, rules)
  {
    if field.Some? {
      ExpansionHasNoKnown(field.value, rules, |rules|);
      NothingToExpand(Expand(field.value, rules), rules, |rules|);
    }
  }

  /** Each match pattern becomes its own expansion; none appears, disappears or changes place. */
  lemma ExpandMatchesIs(m: Matches, rules: Rules)
    requires AcyclicMatches(m, rules)
    ensures var r := ExpandMatches(m, rules);
      && (m.begin.None? ==> r.begin.None?)
      && (m.begin.Some? ==> Acyclic(m.begin.value, rules) && r.begin == Some(Expand(m.begin.value, rules)))
      && (m.end.None? ==> r.end.None?)
      && (m.end.Some? ==> Acyclic(m.end.value, rules) && r.end == Some(Expand(m.end.value, rules)))
      && (m.matchText.None? ==> r.matchText.None?)
      && (m.matchText.Some? ==>
            Acyclic(m.matchText.value, rules) && r.matchText == Some(Expand(m.matchText.value, rules)))
      && (m.whileText.None? ==> r.whileText.None?)
      && (m.whileText.Some? ==>
            Acyclic(m.whileText.value, rules) && r.whileText == Some(Expand(m.whileText.value, rules)))
  {
    hide Acyclic, Expand;
  }

  /** Expanding a rule a second time changes nothing. */
  lemma ExpandTwice(m: Matches, rules: Rules)
    requires AcyclicMatches(m, rules)
    ensures AcyclicMatches(ExpandMatches(m, rules), rules)
    ensures ExpandMatches(ExpandMatches(m, rules), rules) == ExpandMatches(m, rules)
  {
    hide ExpandField, AcyclicField;
    ExpandFieldTwice(m.begin, rules);
    ExpandFieldTwice(m.end, rules);
    ExpandFieldTwice(m.matchText, rules);
    ExpandFieldTwice(m.whileText, rules);
  }

  method ReplaceField(field: Option<Text>, keys: seq<string>, rules: Rules) returns (result: Option<Text>)
    requires forall key :: key in keys <==> key in rules
    requires AcyclicField(field, rules)
    ensures result == ExpandField(field, rules)
  {
    result := field;
    if field.Some? {
      var text := ReplaceReferencesWithStrings(field.value, keys, rules);
      result := Some(text);
    }
  }

  /** The reference pass of `transformFile` over all rules in visiting order.  Every rule ends up as the full
      expansion of its original text with respect to the original rules, although the pass overwrites those
      very rules as it goes, and even when a rule is visited more than once. */
  method ExpandReferences(repository: map<string, Rule>, keys: seq<string>, visited: seq<Rule>)
    requires forall key :: key in keys <==> key in repository
    requires forall rule | rule in visited :: AcyclicMatches(rule.AllMatches(), Gather(repository))
    modifies visited
    ensures forall rule | rule in visited ::
              rule.AllMatches() == ExpandMatches(old(rule.AllMatches()), old(Gather(repository)))
  {
    hide ExpandMatches, AcyclicMatches, NodeMatchText;
    var rules := Gather(repository);
    for i := 0 to |visited|
      invariant forall rule | rule in visited ::
                  rule.AllMatches() == if rule in visited[..i] then ExpandMatches(old(rule.AllMatches()), rules)
                                       else old(rule.AllMatches())
    {
      var rule := visited[i];
      assert rule in visited;
      assert forall r :: r in visited[..i + 1] <==> r in visited[..i] || r == rule;
      ExpandTwice(old(rule.AllMatches()), rules);
      rule.ReplaceInMatches(keys, rules);
    }
    assert visited[..|visited|] == visited;
  }
}
