/** Where the conditions of the prefilter are needed: large logs on which it differs from the plain search, and when it
    does. */
module PrefilterLimits {
  import opened Options
  import opened Texts
  import opened LiteralMatching
  import opened RegexTrees
  import opened LogCompaction
  import opened MatchLogs

  function OnlyPattern(e: Regexp): Rule {
    Rule([e], [])
  }

  /** A text longer than any that is searched directly, of newlines but for its last line. */
  function Padded(line: Text): Text {
    seq(MAX_DIRECT_MATCH_LOG_BYTES + 1, _ => NEWLINE) + line
  }

  lemma {:induction false} ByteLengthAtLeast(t: Text)
    ensures ByteLength(t) >= |t|
  {
    if t == [] {
    } else {
      ByteLengthAtLeast(t[1..]);
    }
  }

  lemma PaddedIsLarge(line: Text)
    ensures Large([Padded(line)])
  {
    ByteLengthAtLeast(Padded(line));
    assert Padded(line) in [Padded(line)];
  }

  /** A log that the canonical form leaves alone is the only view. */
  lemma OneView(log: Text, canonical: Text -> Text)
    requires log != [] && canonical(log) == log
    ensures Views(Sources([log], canonical)) == [log]
  {
    assert [log][..0] == [];
    assert Sources([log], canonical) == [] + [log, log];
    TwoViews([], log, log);
    assert [] + [log, log] == [log, log];
  }

  lemma OnlyLiterals(e: Regexp, h: Text)
    requires RegexMatchHint(e) == PatternHint([h], false) && Usable(h)
    ensures RegisteredLiterals([OnlyPattern(e)]) == {h}
    ensures BuildRulePatternHints([OnlyPattern(e)]) == [RuleHints([PatternHint([h], false)], [])]
  {
    var all, hint := BuildRulePatternHints([OnlyPattern(e)]), PatternHint([h], false);
    assert PatternHints([e]) == [hint] && PatternHints([]) == [];
    assert all == [RuleHints([hint], [])];
    assert AllLiterals([hint]) == {h} && AllLiterals([]) == {} by {
      assert hint in [hint] && h in hint.literals;
    }
    assert RuleLiterals(all) == {h} by {
      var only := RuleHints([hint], []);
      assert only in all && (forall r :: r in all ==> r == only);
      assert AllLiterals(only.patterns) + AllLiterals(only.excludes) == {h};
    }
  }

  /** The rule's verdict on prepared logs is whether one of the hint lines matches. */
  lemma OnlyVerdict(e: Regexp, h: Text, prepared: MatchLogSet)
    requires RegexMatchHint(e) == PatternHint([h], false) && Usable(h) && prepared.hintLines.Some?
    ensures MatchesRuleViews(OnlyPattern(e), BuildRulePatternHints([OnlyPattern(e)])[0], prepared)
       <==> exists line :: line in LinesOf(prepared.hintLines.value, h) && MatchString(e, line)
  {
    OnlyLiterals(e, h);
    OneOf(e, RuleHints([PatternHint([h], false)], []), prepared);
    var lines := prepared.hintLines.value;
    assert h in [h];
    assert PatternMatches(e, PatternHint([h], false), prepared)
      <==> exists line :: line in LinesOf(lines, h) && MatchString(e, line);
  }

  lemma OneOf(e: Regexp, hints: RuleHints, logs: MatchLogSet)
    ensures MatchesRuleViews(OnlyPattern(e), hints, logs) <==> PatternMatches(e, HintAt(hints.patterns, 0), logs)
  {
    var rule := OnlyPattern(e);
    assert rule.patterns[0] == e;
  }

  lemma OnlyNaive(e: Regexp, logs: seq<Text>, canonical: Text -> Text)
    ensures Naive(OnlyPattern(e), logs, canonical) <==> MatchesViews(e, Views(Sources(logs, canonical)))
  {
    var plain := MatchLogSet(Views(Sources(logs, canonical)), [], None);
    OneOf(e, RuleHints([], []), plain);
  }

  // ---------------------------------------------------------------- lines against texts

  /** The pattern matches some line of a view, taken alone. */
  ghost predicate SomeLineMatches(e: Regexp, views: seq<Text>) {
    exists v, line :: v in views && line in Split(v) && MatchString(e, line)
  }

  /** A pattern that is only tried on hint lines. */
  ghost predicate TriedOnLines(e: Regexp) {
    RegexMatchHint(e).literals != [] && !CanMatchNewline(e)
  }

  /** A line that the pattern matches contains a literal of its hint. */
  lemma LineIsHinted(e: Regexp, v: Text, line: Text) returns (h: Text)
    requires TriedOnLines(e) && line in Split(v) && MatchString(e, line) && (!FoldRisk(e) || PlainSpan(v, 0, |v|))
    ensures h in RegexMatchHint(e).literals && Contains(Lower(line), h)
  {
    HintIsCover(e);
    var x, y := SplitSound(v, 0, 0, line);
    var i: nat, j: nat :| i <= j <= |line| && Matches(e, line, i, j);
    if FoldRisk(e) {
      forall k | 0 <= k < |line| ensures line[k] == v[x + k] {}
    }
    CoverSound(e, line, i, j);
    h :| h in RegexMatchHint(e).literals && Contains(Lower(line[i..j]), h);
    var k: nat :| OccursAt(Lower(line[i..j]), h, k);
    OccursInLine(line, i, j, 0, |line|, h, k);
    assert line[0..|line|] == line;
  }

  /** The fast search finds such a pattern exactly when it matches some line of a full view, taken alone. */
  lemma LineVerdict(e: Regexp, hints: set<Text>, logs: MatchLogSet)
    requires logs.hintLines.Some? && Indexed(logs.hintLines.value, hints, logs.full)
    requires Registered(RegexMatchHint(e), hints) && FoldSafe(e, logs.full) && TriedOnLines(e)
    ensures PatternMatches(e, RegexMatchHint(e), logs) <==> SomeLineMatches(e, logs.full)
  {
    HintIsCover(e);
    var hint, lines := RegexMatchHint(e), logs.hintLines.value;
    if PatternMatches(e, hint, logs) {
      var h, line :| h in hint.literals && line in LinesOf(lines, h) && MatchString(e, line);
      HitLinesMember(logs.full, h, line);
    }
    if SomeLineMatches(e, logs.full) {
      var v, line :| v in logs.full && line in Split(v) && MatchString(e, line);
      var h := LineIsHinted(e, v, line);
      HitLinesMember(logs.full, h, line);
      assert line in LinesOf(lines, h);
    }
  }

  /** On large logs the two searches agree about a pattern that is tried on lines, whatever its anchors, exactly when it
      matches a line of a full view alone only if it matches a full view. */
  lemma LinesAgreeIff(e: Regexp, logs: seq<Text>, canonical: Text -> Text, diagnostic: Text -> bool, prepared: MatchLogSet)
    requires Prepared([OnlyPattern(e)], logs, canonical, diagnostic, prepared)
    requires TriedOnLines(e) && FoldSafe(e, prepared.full)
    ensures var rule := OnlyPattern(e);
            (MatchesRuleViews(rule, BuildRulePatternHints([rule])[0], prepared) <==> RuleHolds(rule, logs, canonical))
            <==> (SomeLineMatches(e, prepared.full) ==> MatchesLogs(e, logs, canonical))
  {
    var rule := OnlyPattern(e);
    NaiveIs(rule, logs, canonical);
    ViewsAreLogs(e, logs, canonical);
    var all := BuildRulePatternHints([rule]);
    HintRegistered(all, 0, rule.patterns, 0);
    assert rule.patterns[0] == e && HintAt(all[0].patterns, 0) == RegexMatchHint(e);
    OneOf(e, all[0], prepared);
    OnlyNaive(e, logs, canonical);
    LineVerdict(e, RegisteredLiterals([rule]), prepared);
    if MatchesViews(e, prepared.full) {
      NeverMisses(e, RegisteredLiterals([rule]), prepared);
    }
  }

  // ---------------------------------------------------------------- every pattern on large logs

  /** The text is one of the logs, or the canonical form of one, and not empty. */
  ghost predicate IsView(v: Text, logs: seq<Text>, canonical: Text -> Text) {
    v != [] && exists log :: log in logs && log != [] && (v == log || v == canonical(log))
  }

  /** The pattern matches a compacted log, or the canonical form of one. */
  ghost predicate MatchesCompacted(e: Regexp, logs: seq<Text>, canonical: Text -> Text, diagnostic: Text -> bool) {
    exists log :: log in logs && log != [] &&
                  var kept := Compacted(log, diagnostic);
                  || (kept != [] && MatchString(e, kept)) || (canonical(kept) != [] && MatchString(e, canonical(kept)))
  }

  ghost predicate HasLiteral(hints: seq<Text>, line: Text) {
    exists h :: h in hints && Contains(Lower(line), h)
  }

  lemma FullViews(logs: seq<Text>, canonical: Text -> Text, v: Text)
    ensures v in Views(Sources(logs, canonical)) <==> IsView(v, logs, canonical)
  {
    ViewsMember(Sources(logs, canonical), v);
    SourcesMember(logs, canonical, v);
  }

  lemma {:induction false} CompactMember(logs: seq<Text>, canonical: Text -> Text, diagnostic: Text -> bool, v: Text)
    ensures v in CompactSources(logs, canonical, diagnostic) <==>
              exists log :: log in logs && log != []
                            && (v == Compacted(log, diagnostic) || v == canonical(Compacted(log, diagnostic)))
  {
    if logs == [] {
    } else {
      var front, last := logs[..|logs| - 1], logs[|logs| - 1];
      CompactMember(front, canonical, diagnostic, v);
      assert logs == front + [last];
      assert forall log :: log in logs <==> log in front || log == last;
    }
  }

  lemma FastViews(e: Regexp, logs: seq<Text>, canonical: Text -> Text, diagnostic: Text -> bool)
    ensures MatchesViews(e, Views(CompactSources(logs, canonical, diagnostic)))
       <==> MatchesCompacted(e, logs, canonical, diagnostic)
  {
    var sources := CompactSources(logs, canonical, diagnostic);
    if MatchesViews(e, Views(sources)) {
      var v :| v in Views(sources) && MatchString(e, v);
      ViewsMember(sources, v);
      CompactMember(logs, canonical, diagnostic, v);
    }
    if MatchesCompacted(e, logs, canonical, diagnostic) {
      var log :| log in logs && log != [] &&
                 var kept := Compacted(log, diagnostic);
                 || (kept != [] && MatchString(e, kept)) || (canonical(kept) != [] && MatchString(e, canonical(kept)));
      var kept := Compacted(log, diagnostic);
      var v := if kept != [] && MatchString(e, kept) then kept else canonical(kept);
      CompactMember(logs, canonical, diagnostic, v);
      ViewsMember(sources, v);
    }
  }

  /** What the large-log path decides about a pattern. One that is tried on lines has to match a line alone. Any other is
      tried on the logs and on the compacted logs, on the latter only if some line has a literal of its hint, if it has
      a hint. */
  lemma LargeVerdict(e: Regexp, logs: seq<Text>, canonical: Text -> Text, diagnostic: Text -> bool, hints: set<Text>,
                     prepared: MatchLogSet)
    requires prepared.full == Views(Sources(logs, canonical)) && prepared.hintLines.Some?
    requires prepared.fast == Views(CompactSources(logs, canonical, diagnostic))
    requires Indexed(prepared.hintLines.value, hints, prepared.full) && Registered(RegexMatchHint(e), hints)
    requires LogsFoldSafe(e, logs, canonical)
    ensures var literals := RegexMatchHint(e).literals;
            PatternMatches(e, RegexMatchHint(e), prepared) <==>
              if TriedOnLines(e) then exists v, line :: IsView(v, logs, canonical) && line in Split(v) && MatchString(e, line)
              else || MatchesLogs(e, logs, canonical)
                   || (MatchesCompacted(e, logs, canonical, diagnostic)
                       && (literals == [] || exists v, line :: IsView(v, logs, canonical) && line in Split(v)
                                                               && HasLiteral(literals, line)))
  {
    SafeViews([e], logs, canonical);
    forall v ensures v in prepared.full <==> IsView(v, logs, canonical) {
      FullViews(logs, canonical, v);
    }
    HintIsCover(e);
    if TriedOnLines(e) {
      LineVerdict(e, hints, prepared);
    } else {
      ViewsAreLogs(e, logs, canonical);
      FastViews(e, logs, canonical, diagnostic);
      if MatchesViews(e, prepared.full) {
        NeverMisses(e, hints, prepared);
      }
      MayMatchIff(RegexMatchHint(e).literals, hints, prepared);
    }
  }

  lemma HitsIff(h: Text, hints: set<Text>, prepared: MatchLogSet)
    requires prepared.hintLines.Some? && Indexed(prepared.hintLines.value, hints, prepared.full) && h in hints
    ensures LinesOf(prepared.hintLines.value, h) != [] <==>
              exists v, line :: v in prepared.full && line in Split(v) && Contains(Lower(line), h)
  {
    var found := LinesOf(prepared.hintLines.value, h);
    if found != [] {
      HitLinesMember(prepared.full, h, found[0]);
    }
    if v, line :| v in prepared.full && line in Split(v) && Contains(Lower(line), h) {
      HitLinesMember(prepared.full, h, line);
      assert line in found;
    }
  }

  lemma MayMatchIff(literals: seq<Text>, hints: set<Text>, prepared: MatchLogSet)
    requires prepared.hintLines.Some? && Indexed(prepared.hintLines.value, hints, prepared.full)
    requires forall h :: h in literals ==> h in hints
    ensures HintMayMatch(literals, prepared.hintLines.value) <==>
              literals == [] || exists v, line :: v in prepared.full && line in Split(v) && HasLiteral(literals, line)
  {
    if literals != [] && HintMayMatch(literals, prepared.hintLines.value) {
      var h :| h in literals && LinesOf(prepared.hintLines.value, h) != [];
      HitsIff(h, hints, prepared);
      var v, line :| v in prepared.full && line in Split(v) && Contains(Lower(line), h);
      assert HasLiteral(literals, line);
    }
    if v, line :| v in prepared.full && line in Split(v) && HasLiteral(literals, line) {
      var h :| h in literals && Contains(Lower(line), h);
      HitsIff(h, hints, prepared);
    }
  }

  // ---------------------------------------------------------------- folding

  lemma LiteralHint(runes: seq<nat>, foldCase: bool)
    requires |runes| >= 3 && IsAscii(runes) && RETURN !in runes && NEWLINE !in runes
    ensures RegexMatchHint(Regexp(OpLiteral(runes, foldCase), [])) == PatternHint([Lower(runes)], false)
  {
    var e := Regexp(OpLiteral(runes, foldCase), []);
    assert LiteralCover(e) == Some([Lower(runes)]);
    forall k | 0 <= k < |runes| ensures Lower(runes)[k] != RETURN && Lower(runes)[k] != NEWLINE {
      assert runes[k] in runes;
    }
    assert RETURN !in Lower(runes) && NEWLINE !in Lower(runes) && !CanMatchNewline(e);
  }

  /** On all large logs the prefilter finds the pattern where the plain search does. */
  ghost predicate AlwaysFound(e: Regexp, canonical: Text -> Text, diagnostic: Text -> bool) {
    forall logs: seq<Text>, prepared: MatchLogSet
      | Large(logs) && Prepared([OnlyPattern(e)], logs, canonical, diagnostic, prepared)
        && Naive(OnlyPattern(e), logs, canonical)
      :: MatchesRuleViews(OnlyPattern(e), BuildRulePatternHints([OnlyPattern(e)])[0], prepared)
  }

  /** The literal spelled with a rune outside ASCII wherever one folds to its letter. */
  function Unusual(runes: seq<nat>): Text {
    seq(|runes|, k requires 0 <= k < |runes| => AlternateFold(runes[k]))
  }

  /** A literal pattern is found on all large logs exactly when it is case-sensitive or has no letter that a non-ASCII
      rune folds to: against (?i)kernel, a log that spells it with a Kelvin sign is missed. */
  lemma LiteralFoundIff(runes: seq<nat>, foldCase: bool, canonical: Text -> Text, diagnostic: Text -> bool)
    requires |runes| >= 3 && IsAscii(runes) && RETURN !in runes && NEWLINE !in runes
    requires canonical(Padded(Unusual(runes))) == Padded(Unusual(runes))
    ensures AlwaysFound(Regexp(OpLiteral(runes, foldCase), []), canonical, diagnostic)
       <==> !(foldCase && Foldable(runes))
  {
    if foldCase && Foldable(runes) {
      var prepared := EmptyIndex(runes, canonical, diagnostic);
      UnusualMissed(runes, canonical, diagnostic, prepared);
    } else {
      LiteralFound(runes, foldCase, canonical, diagnostic);
    }
  }

  lemma LiteralFound(runes: seq<nat>, foldCase: bool, canonical: Text -> Text, diagnostic: Text -> bool)
    requires |runes| >= 3 && IsAscii(runes) && RETURN !in runes && NEWLINE !in runes && !(foldCase && Foldable(runes))
    ensures AlwaysFound(Regexp(OpLiteral(runes, foldCase), []), canonical, diagnostic)
  {
    var e := Regexp(OpLiteral(runes, foldCase), []);
    var rules := [OnlyPattern(e)];
    forall logs: seq<Text>, prepared: MatchLogSet
      | Large(logs) && Prepared(rules, logs, canonical, diagnostic, prepared) && Naive(OnlyPattern(e), logs, canonical)
      ensures MatchesRuleViews(OnlyPattern(e), BuildRulePatternHints(rules)[0], prepared)
    {
      assert !FoldRisk(e);
      assert forall p :: p in rules[0].patterns ==> p == e;
      RuleVerdict(rules, 0, RegisteredLiterals(rules), prepared, MatchLogSet(prepared.full, [], None));
    }
  }

  /** The log that is missed, whatever it is prepared to. */
  lemma UnusualMissed(runes: seq<nat>, canonical: Text -> Text, diagnostic: Text -> bool, prepared: MatchLogSet)
    requires |runes| >= 3 && IsAscii(runes) && RETURN !in runes && NEWLINE !in runes && Foldable(runes)
    requires canonical(Padded(Unusual(runes))) == Padded(Unusual(runes))
    requires var rule := OnlyPattern(Regexp(OpLiteral(runes, true), []));
             Prepared([rule], [Padded(Unusual(runes))], canonical, diagnostic, prepared)
    ensures var rule, log := OnlyPattern(Regexp(OpLiteral(runes, true), [])), Padded(Unusual(runes));
            && Large([log]) && Naive(rule, [log], canonical)
            && !MatchesRuleViews(rule, BuildRulePatternHints([rule])[0], prepared)
  {
    var e, v, h := Regexp(OpLiteral(runes, true), []), Padded(Unusual(runes)), Lower(runes);
    LiteralHint(runes, true);
    OneView(v, canonical);
    OnlyLiterals(e, h);
    NoHits(runes);
    PaddedIsLarge(Unusual(runes));
    UnusualMatches(runes);
    assert v in [v];
    OnlyNaive(e, [v], canonical);
    OnlyVerdict(e, h, prepared);
  }

  lemma NoHits(runes: seq<nat>)
    requires |runes| >= 3 && IsAscii(runes) && NEWLINE !in runes && Foldable(runes)
    ensures HitLines([Padded(Unusual(runes))], Lower(runes)) == []
  {
    var hits := HitLines([Padded(Unusual(runes))], Lower(runes));
    UnusualUnseen(runes);
    if hits != [] {
      HitLinesMember([Padded(Unusual(runes))], Lower(runes), hits[0]);
    }
  }

  /** With no hits the empty index is the one it is prepared to. */
  lemma EmptyIndex(runes: seq<nat>, canonical: Text -> Text, diagnostic: Text -> bool) returns (prepared: MatchLogSet)
    requires |runes| >= 3 && IsAscii(runes) && RETURN !in runes && NEWLINE !in runes && Foldable(runes)
    requires canonical(Padded(Unusual(runes))) == Padded(Unusual(runes))
    ensures var rule := OnlyPattern(Regexp(OpLiteral(runes, true), []));
            Prepared([rule], [Padded(Unusual(runes))], canonical, diagnostic, prepared)
  {
    var v := Padded(Unusual(runes));
    LiteralHint(runes, true);
    OneView(v, canonical);
    OnlyLiterals(Regexp(OpLiteral(runes, true), []), Lower(runes));
    NoHits(runes);
    prepared := MatchLogSet(Views(CompactSources([v], canonical, diagnostic)), [v], Some(map[]));
  }

  lemma UnusualMatches(runes: seq<nat>)
    ensures MatchString(Regexp(OpLiteral(runes, true), []), Padded(Unusual(runes)))
  {
    var v, n := Padded(Unusual(runes)), MAX_DIRECT_MATCH_LOG_BYTES + 1;
    assert Matches(Regexp(OpLiteral(runes, true), []), v, n, n + |runes|);
  }

  /** No line of the log contains the literal. */
  lemma UnusualUnseen(runes: seq<nat>)
    requires |runes| >= 3 && IsAscii(runes) && NEWLINE !in runes && Foldable(runes)
    ensures forall line :: line in Split(Padded(Unusual(runes))) ==> !Contains(Lower(line), Lower(runes))
  {
    var v, h, n := Padded(Unusual(runes)), Lower(runes), MAX_DIRECT_MATCH_LOG_BYTES + 1;
    var m :| 0 <= m < |runes| && FoldsToAscii(AlternateFold(runes[m]));
    forall k: nat ensures !OccursAt(Lower(v), h, k) {
      if k + |h| <= |v| {
        var part := Lower(v)[k..k + |h|];
        if k < n {
          assert runes[0] in runes && part[0] == NEWLINE != h[0];
        } else {
          assert k == n && v[n + m] == AlternateFold(runes[m]) && part[m] != h[m];
        }
      }
    }
    forall line | line in Split(v) ensures !Contains(Lower(line), h) {
      var x, y := SplitSound(v, 0, 0, line);
      if Contains(Lower(line), h) {
        LowerSlice(v, x, y);
        ContainsWiden(Lower(v), x, y, h);
      }
    }
  }

  // ---------------------------------------------------------------- anchors

  /** The literal anchored to the begin of the text. */
  function Anchored(runes: seq<nat>): Regexp {
    Regexp(OpConcat, [Regexp(OpBeginText, []), Regexp(OpLiteral(runes, false), [])])
  }

  lemma AnchoredHint(runes: seq<nat>)
    requires |runes| >= 3 && IsAscii(runes) && RETURN !in runes && NEWLINE !in runes
    ensures RegexMatchHint(Anchored(runes)) == PatternHint([Lower(runes)], false)
  {
    var begin, literal := Regexp(OpBeginText, []), Regexp(OpLiteral(runes, false), []);
    LiteralHint(runes, false);
    assert [begin, literal][1..] == [literal] && [literal][1..] == [];
    assert LiteralCover(begin) == None && LiteralCover(literal) == Some([Lower(runes)]);
    assert BestCover([begin, literal], []) == BestCover([literal], []) == BestCover([], [Lower(runes)]);
    assert LiteralCover(Anchored(runes)) == Some([Lower(runes)]);
    assert !CanMatchNewline(begin) && !CanMatchNewline(literal);
    assert !AnyCanMatchNewline([literal]) && !AnyCanMatchNewline([begin, literal]);
    forall k | 0 <= k < |runes| ensures Lower(runes)[k] != RETURN && Lower(runes)[k] != NEWLINE {
      assert runes[k] in runes;
    }
  }

  /** It matches exactly the texts that start with the literal. */
  lemma AnchoredMatches(runes: seq<nat>, t: Text)
    requires runes != []
    ensures MatchString(Anchored(runes), t) <==> runes <= t
  {
    if runes <= t {
      AnchoredFound(runes, t);
    }
    if MatchString(Anchored(runes), t) {
      AnchoredAtStart(runes, t);
    }
  }

  lemma AnchoredFound(runes: seq<nat>, t: Text)
    requires runes != [] && runes <= t
    ensures MatchString(Anchored(runes), t)
  {
    var begin, literal := Regexp(OpBeginText, []), Regexp(OpLiteral(runes, false), []);
    assert [begin, literal][1..] == [literal] && [literal][1..] == [];
    assert MatchesAll([], t, |runes|, |runes|);
    assert Matches(literal, t, 0, |runes|);
    assert MatchesAll([literal], t, 0, |runes|);
    assert Matches(begin, t, 0, 0);
    assert MatchesAll([begin, literal], t, 0, |runes|);
    assert Matches(Anchored(runes), t, 0, |runes|);
  }

  lemma AnchoredAtStart(runes: seq<nat>, t: Text)
    requires runes != [] && MatchString(Anchored(runes), t)
    ensures runes <= t
  {
    var begin, literal := Regexp(OpBeginText, []), Regexp(OpLiteral(runes, false), []);
    assert [begin, literal][1..] == [literal];
    var i: nat, j: nat :| i <= j <= |t| && Matches(Anchored(runes), t, i, j);
    var k := FirstMatch([begin, literal], t, i, j);
    var m := FirstMatch([literal], t, k, j);
    assert Matches(literal, t, 0, |runes|);
    assert forall n :: 0 <= n < |runes| ==> t[n] == runes[n];
  }

  /** Some line of a view starts with the literal. */
  ghost predicate SomeLineStarts(views: seq<Text>, runes: seq<nat>) {
    exists v, line :: v in views && line in Split(v) && runes <= line
  }

  ghost predicate SomeViewStarts(views: seq<Text>, runes: seq<nat>) {
    exists v :: v in views && runes <= v
  }

  /** On large logs the anchored literal is found where some line of a full view starts with it, while the plain
      search finds it where some full view does. */
  lemma AnchoredVerdicts(runes: seq<nat>, logs: seq<Text>, canonical: Text -> Text, diagnostic: Text -> bool,
                         prepared: MatchLogSet)
    requires |runes| >= 3 && IsAscii(runes) && RETURN !in runes && NEWLINE !in runes
    requires Prepared([OnlyPattern(Anchored(runes))], logs, canonical, diagnostic, prepared)
    ensures MatchesRuleViews(OnlyPattern(Anchored(runes)), BuildRulePatternHints([OnlyPattern(Anchored(runes))])[0], prepared)
       <==> SomeLineStarts(prepared.full, runes)
    ensures Naive(OnlyPattern(Anchored(runes)), logs, canonical) <==> SomeViewStarts(prepared.full, runes)
  {
    var e, h := Anchored(runes), Lower(runes);
    AnchoredHint(runes);
    OnlyLiterals(e, h);
    OnlyVerdict(e, h, prepared);
    OnlyNaive(e, logs, canonical);
    AnchoredLines(runes, prepared.full, prepared.hintLines.value);
    AnchoredViews(runes, prepared.full);
  }

  lemma AnchoredViews(runes: seq<nat>, views: seq<Text>)
    requires runes != []
    ensures MatchesViews(Anchored(runes), views) <==> SomeViewStarts(views, runes)
  {
    forall t ensures MatchString(Anchored(runes), t) <==> runes <= t {
      AnchoredMatches(runes, t);
    }
  }

  lemma AnchoredLines(runes: seq<nat>, views: seq<Text>, lines: HintLines)
    requires runes != [] && Indexed(lines, {Lower(runes)}, views)
    ensures (exists line :: line in LinesOf(lines, Lower(runes)) && MatchString(Anchored(runes), line))
       <==> SomeLineStarts(views, runes)
  {
    var h := Lower(runes);
    forall t ensures MatchString(Anchored(runes), t) <==> runes <= t {
      AnchoredMatches(runes, t);
    }
    forall line ensures line in LinesOf(lines, h) <==>
                  exists v :: v in views && line in Split(v) && Contains(Lower(line), h) {
      HitLinesMember(views, h, line);
    }
    if SomeLineStarts(views, runes) {
      var v, line :| v in views && line in Split(v) && runes <= line;
      assert OccursAt(Lower(line), h, 0);
      assert line in LinesOf(lines, h) && MatchString(Anchored(runes), line);
    }
  }

  /** The two searches agree about the anchored literal exactly when a line of a full view starts with it only if a
      full view does. */
  lemma AnchoredAgreeIff(runes: seq<nat>, logs: seq<Text>, canonical: Text -> Text, diagnostic: Text -> bool,
                         prepared: MatchLogSet)
    requires |runes| >= 3 && IsAscii(runes) && RETURN !in runes && NEWLINE !in runes
    requires Prepared([OnlyPattern(Anchored(runes))], logs, canonical, diagnostic, prepared)
    ensures var rule := OnlyPattern(Anchored(runes));
            (MatchesRuleViews(rule, BuildRulePatternHints([rule])[0], prepared) <==> Naive(rule, logs, canonical))
            <==> (SomeLineStarts(prepared.full, runes) ==> SomeViewStarts(prepared.full, runes))
  {
    AnchoredVerdicts(runes, logs, canonical, diagnostic, prepared);
    if SomeViewStarts(prepared.full, runes) {
      var v :| v in prepared.full && runes <= v;
      StartIsLine(v, runes);
    }
  }

  /** A text that starts with the literal has a line that does. */
  lemma StartIsLine(v: Text, runes: seq<nat>)
    requires runes <= v && NEWLINE !in runes
    ensures exists line :: line in Split(v) && runes <= line
  {
    forall k | 0 <= k < |runes| ensures v[k] != NEWLINE {
      assert runes[k] in runes;
    }
    var a, b := LineAround(v, 0, |runes|);
    assert runes <= v[a..b];
  }

  /** A large log on which they differ: its last line alone is the literal. */
  lemma AnchoredInvents(runes: seq<nat>, canonical: Text -> Text, diagnostic: Text -> bool, prepared: MatchLogSet)
    requires |runes| >= 3 && IsAscii(runes) && RETURN !in runes && NEWLINE !in runes
    requires canonical(Padded(runes)) == Padded(runes)
    requires Prepared([OnlyPattern(Anchored(runes))], [Padded(runes)], canonical, diagnostic, prepared)
    ensures var rule := OnlyPattern(Anchored(runes));
            && Large([Padded(runes)])
            && MatchesRuleViews(rule, BuildRulePatternHints([rule])[0], prepared)
            && !Naive(rule, [Padded(runes)], canonical)
  {
    var v, n := Padded(runes), MAX_DIRECT_MATCH_LOG_BYTES + 1;
    PaddedIsLarge(runes);
    OneView(v, canonical);
    AnchoredVerdicts(runes, [v], canonical, diagnostic, prepared);
    forall k | n <= k < |v| ensures v[k] != NEWLINE {
      assert v[k] == runes[k - n] && runes[k - n] in runes;
    }
    SplitComplete(v, 0, 0, n, |v|);
    assert v[n..|v|] == runes;
    assert v in [v] && v[n..|v|] in Split(v) && runes <= v[n..|v|];
    assert v[0] == NEWLINE != runes[0] by {
      assert runes[0] in runes;
    }
  }

  // ---------------------------------------------------------------- the code on these logs

  /** The canonical form of a log that has nothing to replace. */
  function Unchanged(): Text -> Text {
    t => t
  }

  /** Prepare the log with the unusual spelling: the plain search finds the pattern, the prefilter does not. */
  method PrepareUnusual(runes: seq<nat>, diagnostic: Text -> bool) returns (hints: seq<RuleHints>, prepared: MatchLogSet)
    requires |runes| >= 3 && IsAscii(runes) && RETURN !in runes && NEWLINE !in runes && Foldable(runes)
    ensures var rule := OnlyPattern(Regexp(OpLiteral(runes, true), []));
            RuleHolds(rule, [Padded(Unusual(runes))], Unchanged())
            && !MatchesRuleViews(rule, RuleHintsAt(hints, 0), prepared)
  {
    var rule, same := OnlyPattern(Regexp(OpLiteral(runes, true), [])), Unchanged();
    hints, prepared := PrepareForRules([rule], [Padded(Unusual(runes))], same, diagnostic);
    PaddedIsLarge(Unusual(runes));
    UnusualMissed(runes, same, diagnostic, prepared);
    NaiveIs(rule, [Padded(Unusual(runes))], same);
  }

  /** Prepare the log whose last line is the anchored literal: the prefilter finds the pattern, the plain search does
      not. */
  method PrepareAnchored(runes: seq<nat>, diagnostic: Text -> bool) returns (hints: seq<RuleHints>, prepared: MatchLogSet)
    requires |runes| >= 3 && IsAscii(runes) && RETURN !in runes && NEWLINE !in runes
    ensures var rule := OnlyPattern(Anchored(runes));
            MatchesRuleViews(rule, RuleHintsAt(hints, 0), prepared) && !RuleHolds(rule, [Padded(runes)], Unchanged())
  {
    var rule, same := OnlyPattern(Anchored(runes)), Unchanged();
    hints, prepared := PrepareForRules([rule], [Padded(runes)], same, diagnostic);
    PaddedIsLarge(runes);
    AnchoredInvents(runes, same, diagnostic, prepared);
    NaiveIs(rule, [Padded(runes)], same);
  }
}
