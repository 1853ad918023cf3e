/** Preparing the views of the logs and matching rules against them, directly or over hint lines. */
module MatchLogs {
  import opened Options
  import opened Texts
  import opened LiteralMatching
  import opened RegexTrees
  import opened LogCompaction

  datatype Rule = Rule(patterns: seq<Regexp>, excludes: seq<Regexp>)

  datatype MatchLogSet = MatchLogSet(fast: seq<Text>, full: seq<Text>, hintLines: Option<HintLines>)

  const NO_HINT := PatternHint([], false)

  // ---------------------------------------------------------------- hints of the patterns

  function RegexMatchHint(e: Regexp): PatternHint {
    var multiline := CanMatchNewline(e);
    var cover := LiteralCover(e);
    if cover.None? || cover.value == [] then PatternHint([], multiline)
    else if exists h :: h in cover.value && (|h| < 3 || RETURN in h || NEWLINE in h) then PatternHint([], multiline)
    else PatternHint(cover.value, multiline)
  }

  function PatternHints(patterns: seq<Regexp>): seq<PatternHint> {
    seq(|patterns|, i requires 0 <= i < |patterns| => RegexMatchHint(patterns[i]))
  }

  function BuildRulePatternHints(rules: seq<Rule>): seq<RuleHints> {
    seq(|rules|, i requires 0 <= i < |rules| =>
          RuleHints(PatternHints(rules[i].patterns), PatternHints(rules[i].excludes)))
  }

  // ---------------------------------------------------------------- views

  function AddView(views: seq<Text>, text: Text): seq<Text> {
    if text == [] || text in views then views else views + [text]
  }

  /** The non-empty texts without repetitions, in order. */
  function Views(texts: seq<Text>): seq<Text> {
    if texts == [] then [] else AddView(Views(texts[..|texts| - 1]), texts[|texts| - 1])
  }

  /** Each non-empty log followed by its canonical form. */
  function Sources(logs: seq<Text>, canonical: Text -> Text): seq<Text> {
    if logs == [] then []
    else
      var log := logs[|logs| - 1];
      Sources(logs[..|logs| - 1], canonical) + if log == [] then [] else [log, canonical(log)]
  }

  ghost function CompactSources(logs: seq<Text>, canonical: Text -> Text, diagnostic: Text -> bool): seq<Text> {
    if logs == [] then []
    else
      var log := logs[|logs| - 1];
      CompactSources(logs[..|logs| - 1], canonical, diagnostic)
      + if log == [] then [] else [Compacted(log, diagnostic), canonical(Compacted(log, diagnostic))]
  }

  /** The lines that contain h once their ASCII letters are lowercased. */
  ghost function Hits(lines: seq<Text>, h: Text): seq<Text> {
    if lines == [] then []
    else
      var line := lines[|lines| - 1];
      Hits(lines[..|lines| - 1], h) + if Contains(Lower(line), h) then [line] else []
  }

  ghost function HitLines(views: seq<Text>, h: Text): seq<Text> {
    if views == [] then [] else HitLines(views[..|views| - 1], h) + Hits(Split(views[|views| - 1]), h)
  }

  /** The index holds, for every registered literal, the lines of the full views that contain it. */
  ghost predicate Indexed(lines: HintLines, hints: set<Text>, views: seq<Text>) {
    forall h :: LinesOf(lines, h) == if h in hints then HitLines(views, h) else []
  }

  lemma ViewsSnoc(texts: seq<Text>, text: Text)
    ensures Views(texts + [text]) == AddView(Views(texts), text)
  {
    assert (texts + [text])[..|texts|] == texts;
  }

  lemma HitLinesSnoc(views: seq<Text>, text: Text, h: Text)
    ensures HitLines(views + [text], h) == HitLines(views, h) + Hits(Split(text), h)
  {
    assert (views + [text])[..|views|] == views;
  }

  /** As `Indexed`, with the lines of one more view handled in part. */
  ghost predicate IndexedWith(lines: HintLines, hints: set<Text>, views: seq<Text>, parts: seq<Text>) {
    forall h :: EntryWith(lines, hints, views, parts, h)
  }

  ghost predicate EntryWith(lines: HintLines, hints: set<Text>, views: seq<Text>, parts: seq<Text>, h: Text) {
    LinesOf(lines, h) == if h in hints then HitLines(views, h) + Hits(parts, h) else []
  }

  lemma IndexLine(before: HintLines, after: HintLines, hints: set<Text>, views: seq<Text>, parts: seq<Text>, line: Text)
    requires IndexedWith(before, hints, views, parts)
    requires forall h :: Extended(after, before, h, line, h in hints && Contains(Lower(line), h))
    ensures IndexedWith(after, hints, views, parts + [line])
  {
    forall h ensures EntryWith(after, hints, views, parts + [line], h) {
      assert EntryWith(before, hints, views, parts, h);
      assert Extended(after, before, h, line, h in hints && Contains(Lower(line), h));
      assert (parts + [line])[..|parts|] == parts;
    }
  }

  /** Index the lines of one more view. */
  method IndexView(matcher: LiteralMatcher, views: seq<Text>, text: Text, lines: HintLines)
    returns (indexed: HintLines)
    requires matcher.Valid() && Indexed(lines, matcher.hints, views)
    ensures Indexed(indexed, matcher.hints, views + [text])
  {
    indexed := lines;
    var parts := Split(text);
    forall h ensures EntryWith(indexed, matcher.hints, views, parts[..0], h) {
    }
    for i := 0 to |parts|
      invariant IndexedWith(indexed, matcher.hints, views, parts[..i])
    {
      ghost var before := indexed;
      indexed := matcher.FindLine(parts[i], indexed);
      IndexLine(before, indexed, matcher.hints, views, parts[..i], parts[i]);
      assert parts[..i + 1] == parts[..i] + [parts[i]];
    }
    assert parts[..|parts|] == parts;
    forall h ensures LinesOf(indexed, h) == if h in matcher.hints then HitLines(views + [text], h) else [] {
      assert EntryWith(indexed, matcher.hints, views, parts, h);
      HitLinesSnoc(views, text, h);
    }
  }

  method AddFullView(matcher: LiteralMatcher, views: seq<Text>, text: Text, lines: HintLines)
    returns (more: seq<Text>, indexed: HintLines)
    requires matcher.Valid() && Indexed(lines, matcher.hints, views)
    ensures more == AddView(views, text) && Indexed(indexed, matcher.hints, more)
  {
    more, indexed := views, lines;
    if text == [] || text in views {
      return;
    }
    more := views + [text];
    indexed := IndexView(matcher, views, text, lines);
  }

  method PrepareMatchLogs(matcher: LiteralMatcher?, logs: seq<Text>, canonical: Text -> Text,
                          diagnostic: Text -> bool)
    returns (prepared: MatchLogSet)
    requires matcher != null ==> matcher.Valid()
    ensures matcher == null ==> prepared == MatchLogSet(Views(Sources(logs, canonical)), [], None)
    ensures matcher != null ==>
              && prepared.full == Views(Sources(logs, canonical))
              && prepared.fast == Views(CompactSources(logs, canonical, diagnostic))
              && prepared.hintLines.Some?
              && Indexed(prepared.hintLines.value, matcher.hints, prepared.full)
  {
    var fast: seq<Text>, full: seq<Text> := [], [];
    var lines: HintLines := map[];
    for i := 0 to |logs|
      invariant matcher == null ==> fast == Views(Sources(logs[..i], canonical)) && full == []
      invariant matcher != null ==>
                  && full == Views(Sources(logs[..i], canonical))
                  && fast == Views(CompactSources(logs[..i], canonical, diagnostic))
                  && Indexed(lines, matcher.hints, full)
    {
      var log := logs[i];
      SourcesSnoc(logs, i, canonical, diagnostic);
      if log == [] {
        continue;
      }
      if matcher == null {
        TwoViews(Sources(logs[..i], canonical), log, canonical(log));
        fast := AddView(fast, log);
        fast := AddView(fast, canonical(log));
        continue;
      }
      TwoViews(Sources(logs[..i], canonical), log, canonical(log));
      full, lines := AddFullView(matcher, full, log, lines);
      full, lines := AddFullView(matcher, full, canonical(log), lines);
      var matchLog := CompactMatchLog(log, diagnostic);
      TwoViews(CompactSources(logs[..i], canonical, diagnostic), matchLog, canonical(matchLog));
      fast := AddView(fast, matchLog);
      fast := AddView(fast, canonical(matchLog));
    }
    assert logs[..|logs|] == logs;
    if matcher == null {
      prepared := MatchLogSet(fast, full, None);
    } else {
      prepared := MatchLogSet(fast, full, Some(lines));
    }
  }

  lemma SourcesSnoc(logs: seq<Text>, i: nat, canonical: Text -> Text, diagnostic: Text -> bool)
    requires i < |logs|
    ensures Sources(logs[..i + 1], canonical)
         == Sources(logs[..i], canonical) + if logs[i] == [] then [] else [logs[i], canonical(logs[i])]
    ensures logs[i] == [] ==> Sources(logs[..i + 1], canonical) == Sources(logs[..i], canonical)
    ensures var before, after := CompactSources(logs[..i], canonical, diagnostic),
                                 CompactSources(logs[..i + 1], canonical, diagnostic);
            var kept := Compacted(logs[i], diagnostic);
            after == if logs[i] == [] then before else before + [kept, canonical(kept)]
  {
    assert logs[..i + 1][..i] == logs[..i];
  }

  lemma TwoViews(texts: seq<Text>, a: Text, b: Text)
    ensures Views(texts + [a, b]) == AddView(AddView(Views(texts), a), b)
  {
    assert texts + [a, b] == texts + [a] + [b];
    ViewsSnoc(texts, a);
    ViewsSnoc(texts + [a], b);
  }

  // ---------------------------------------------------------------- matching

  ghost predicate MatchesViews(e: Regexp, views: seq<Text>) {
    exists v :: v in views && MatchString(e, v)
  }

  ghost predicate MatchesHintLines(e: Regexp, hints: seq<Text>, lines: HintLines) {
    exists h, line :: h in hints && line in LinesOf(lines, h) && MatchString(e, line)
  }

  predicate HintMayMatch(hints: seq<Text>, lines: HintLines) {
    hints == [] || exists h :: h in hints && LinesOf(lines, h) != []
  }

  ghost predicate PatternMatches(e: Regexp, hint: PatternHint, logs: MatchLogSet) {
    if logs.hintLines.None? then MatchesViews(e, logs.fast)
    else if !HintMayMatch(hint.literals, logs.hintLines.value) then false
    else if hint.literals != [] && !hint.multiline then MatchesHintLines(e, hint.literals, logs.hintLines.value)
    else MatchesViews(e, logs.fast) || MatchesViews(e, logs.full)
  }

  function HintAt(hints: seq<PatternHint>, i: nat): PatternHint {
    if i < |hints| then hints[i] else NO_HINT
  }

  ghost predicate MatchesRuleViews(rule: Rule, hints: RuleHints, logs: MatchLogSet) {
    && (exists i :: 0 <= i < |rule.patterns| && PatternMatches(rule.patterns[i], HintAt(hints.patterns, i), logs))
    && !(exists i :: 0 <= i < |rule.excludes| && PatternMatches(rule.excludes[i], HintAt(hints.excludes, i), logs))
  }

  // ---------------------------------------------------------------- what the index contains

  lemma {:induction false} HitsMember(lines: seq<Text>, h: Text, line: Text)
    ensures line in Hits(lines, h) <==> line in lines && Contains(Lower(line), h)
  {
    if lines == [] {
    } else {
      var front := lines[..|lines| - 1];
      HitsMember(front, h, line);
      assert lines == front + [lines[|lines| - 1]];
    }
  }

  lemma {:induction false} HitLinesMember(views: seq<Text>, h: Text, line: Text)
    ensures line in HitLines(views, h) <==> exists v :: v in views && line in Split(v) && Contains(Lower(line), h)
  {
    if views == [] {
    } else {
      var front, last := views[..|views| - 1], views[|views| - 1];
      HitLinesMember(front, h, line);
      HitsMember(Split(last), h, line);
      assert views == front + [last];
      assert forall v :: v in views <==> v in front || v == last;
    }
  }

  /** The literals of the hint are registered with the automaton. */
  ghost predicate Registered(hint: PatternHint, hints: set<Text>) {
    forall h :: h in hint.literals ==> h in hints
  }

  /** The views the hints are reliable on: no rune that folds into ASCII, unless the pattern has no
      case-insensitive k or s. */
  ghost predicate FoldSafe(e: Regexp, views: seq<Text>) {
    !FoldRisk(e) || forall v :: v in views ==> PlainSpan(v, 0, |v|)
  }

  lemma HintIsCover(e: Regexp)
    ensures RegexMatchHint(e).multiline == CanMatchNewline(e)
    ensures RegexMatchHint(e).literals != [] ==>
              LiteralCover(e) == Some(RegexMatchHint(e).literals)
              && forall h :: h in RegexMatchHint(e).literals ==> |h| >= 3 && NEWLINE !in h
  {
  }

  /** A pattern has a hint exactly when it has a cover of literals that are at least three units long and within a line. */
  lemma HintIff(e: Regexp)
    ensures RegexMatchHint(e).literals != [] <==>
              LiteralCover(e).Some? && forall h :: h in LiteralCover(e).value ==> |h| >= 3 && 10 !in h && 13 !in h
  {
    if LiteralCover(e).Some? {
      CoverUsable(e);
    }
  }

  /** An occurrence inside a lowercased span is an occurrence in the lowercased line around it. */
  lemma OccursInLine(v: Text, i: nat, j: nat, a: nat, b: nat, h: Text, k: nat)
    requires i <= j <= |v| && a <= b <= |v| && OccursAt(Lower(v[i..j]), h, k)
    requires a <= i + k && i + k + |h| <= b
    ensures Contains(Lower(v[a..b]), h)
    ensures NEWLINE !in h ==> NewlineFree(v, i + k, i + k + |h|)
  {
    var span, line, at := Lower(v[i..j]), Lower(v[a..b]), i + k - a;
    forall m | 0 <= m < |h| ensures line[at + m] == h[m] == LowerUnit(v[i + k + m]) {
      assert h[m] == span[k..k + |h|][m] == span[k + m];
      assert v[i..j][k + m] == v[i + k + m] == v[a..b][at + m];
    }
    assert line[at..at + |h|] == h;
    assert OccursAt(line, h, at);
    forall m | i + k <= m < i + k + |h| ensures NEWLINE !in h ==> v[m] != NEWLINE {
      assert h[m - i - k] == LowerUnit(v[i + k + (m - i - k)]);
    }
  }

  /** A matched span of a view has a line of that view that contains a literal of the hint. */
  lemma HintedLine(e: Regexp, v: Text, i: nat, j: nat) returns (h: Text, line: Text)
    requires RegexMatchHint(e).literals != [] && i <= j <= |v| && Matches(e, v, i, j)
    requires !FoldRisk(e) || PlainSpan(v, 0, |v|)
    ensures h in RegexMatchHint(e).literals && line in Split(v) && Contains(Lower(line), h)
    ensures !CanMatchNewline(e) ==> MatchString(e, line)
  {
    HintIsCover(e);
    CoverSound(e, v, i, j);
    h :| h in RegexMatchHint(e).literals && Contains(Lower(v[i..j]), h);
    var k: nat :| OccursAt(Lower(v[i..j]), h, k);
    var x, y := i, j;
    if CanMatchNewline(e) {
      OccursInLine(v, i, j, i, j, h, k);
      x, y := i + k, i + k + |h|;
    } else {
      NewlineSound(e, v, i, j);
    }
    var a, b := LineAround(v, x, y);
    line := v[a..b];
    OccursInLine(v, i, j, a, b, h, k);
    if !CanMatchNewline(e) {
      MatchesInLine(e, v, a, b, i, j);
      assert Matches(e, line, i - a, j - a);
    }
  }

  /** A match on a line of a text is a match in the text, without anchors to the ends of the text. */
  lemma LineMatchLifts(e: Regexp, v: Text, line: Text)
    requires line in Split(v) && MatchString(e, line) && !HasTextAnchor(e)
    ensures MatchString(e, v)
  {
    var x, y := SplitSound(v, 0, 0, line);
    var i: nat, j: nat :| i <= j <= |line| && Matches(e, line, i, j);
    MatchesInLine(e, v, x, y, i + x, j + x);
    assert Matches(e, v, i + x, j + x);
  }

  // ---------------------------------------------------------------- the prefilter against the plain search

  /** On the large-log path no match in a full view is missed. */
  lemma NeverMisses(e: Regexp, hints: set<Text>, logs: MatchLogSet)
    requires logs.hintLines.Some? && Indexed(logs.hintLines.value, hints, logs.full)
    requires Registered(RegexMatchHint(e), hints) && FoldSafe(e, logs.full)
    requires MatchesViews(e, logs.full)
    ensures PatternMatches(e, RegexMatchHint(e), logs)
  {
    var hint, lines := RegexMatchHint(e), logs.hintLines.value;
    if hint.literals != [] {
      var v :| v in logs.full && MatchString(e, v);
      var i: nat, j: nat :| i <= j <= |v| && Matches(e, v, i, j);
      var h, line := HintedLine(e, v, i, j);
      HitLinesMember(logs.full, h, line);
      assert line in LinesOf(lines, h);
      HintIsCover(e);
    }
  }

  /** A pattern that is only tried on hint lines and cannot tell a line from a text. */
  ghost predicate LineLocal(e: Regexp) {
    RegexMatchHint(e).literals != [] && !CanMatchNewline(e) && !HasTextAnchor(e)
  }

  /** For such a pattern a match on a hint line is a match in a full view. */
  lemma NeverInvents(e: Regexp, hints: set<Text>, logs: MatchLogSet)
    requires logs.hintLines.Some? && Indexed(logs.hintLines.value, hints, logs.full)
    requires LineLocal(e) && PatternMatches(e, RegexMatchHint(e), logs)
    ensures MatchesViews(e, logs.full)
  {
    HintIsCover(e);
    var hint, lines := RegexMatchHint(e), logs.hintLines.value;
    var h, line :| h in hint.literals && line in LinesOf(lines, h) && MatchString(e, line);
    HitLinesMember(logs.full, h, line);
    var v :| v in logs.full && line in Split(v) && Contains(Lower(line), h);
    LineMatchLifts(e, v, line);
  }

  /** The fast form refines the plain one: the same pattern finds a match over the hint lines exactly
      when some full view matches. */
  lemma PrefilterExact(e: Regexp, hints: set<Text>, logs: MatchLogSet)
    requires logs.hintLines.Some? && Indexed(logs.hintLines.value, hints, logs.full)
    requires Registered(RegexMatchHint(e), hints) && FoldSafe(e, logs.full) && LineLocal(e)
    ensures PatternMatches(e, RegexMatchHint(e), logs) <==> MatchesViews(e, logs.full)
  {
    if MatchesViews(e, logs.full) {
      NeverMisses(e, hints, logs);
    }
    if PatternMatches(e, RegexMatchHint(e), logs) {
      NeverInvents(e, hints, logs);
    }
  }

  /** The literals of a pattern's hint can be reported once its rule's hints are registered. */
  lemma HintRegistered(all: seq<RuleHints>, r: nat, patterns: seq<Regexp>, i: nat)
    requires r < |all| && i < |patterns|
    requires all[r].patterns == PatternHints(patterns) || all[r].excludes == PatternHints(patterns)
    ensures forall h :: h in RegexMatchHint(patterns[i]).literals ==> h in RuleLiterals(all) && Usable(h)
  {
    var list, e := PatternHints(patterns), patterns[i];
    var hint := RegexMatchHint(e);
    HintIsCover(e);
    if hint.literals != [] {
      CoverUsable(e);
    }
    assert list[i] == hint && hint in list;
    forall h | h in hint.literals ensures h in RuleLiterals(all) {
      var rule := all[r];
      assert h in AllLiterals(list);
      assert rule in all && h in AllLiterals(rule.patterns) + AllLiterals(rule.excludes);
    }
  }

  ghost predicate AllLineLocal(patterns: seq<Regexp>) {
    forall e :: e in patterns ==> LineLocal(e)
  }

  ghost predicate AllFoldSafe(patterns: seq<Regexp>, views: seq<Text>) {
    forall e :: e in patterns ==> FoldSafe(e, views)
  }

  /** What holds of the verdict of a rule holds of each of its patterns. */
  lemma PatternVerdict(e: Regexp, hints: set<Text>, large: MatchLogSet, plain: MatchLogSet)
    requires large.hintLines.Some? && Indexed(large.hintLines.value, hints, large.full)
    requires plain == MatchLogSet(large.full, [], None)
    requires Registered(RegexMatchHint(e), hints) && FoldSafe(e, large.full)
    ensures PatternMatches(e, NO_HINT, plain) ==> PatternMatches(e, RegexMatchHint(e), large)
    ensures LineLocal(e) ==> (PatternMatches(e, NO_HINT, plain) <==> PatternMatches(e, RegexMatchHint(e), large))
  {
    if MatchesViews(e, large.full) {
      NeverMisses(e, hints, large);
    }
    if LineLocal(e) {
      PrefilterExact(e, hints, large);
    }
  }

  /** The verdict of a rule on large logs against the verdict of running its patterns on every full
      view. With line-local patterns and excludes they agree; with arbitrary patterns a verdict of the
      plain search is kept as long as the excludes are line-local. */
  lemma RuleVerdict(rules: seq<Rule>, r: nat, hints: set<Text>, large: MatchLogSet, plain: MatchLogSet)
    requires r < |rules|
    requires forall h :: h in hints <==> h in RuleLiterals(BuildRulePatternHints(rules)) && Usable(h)
    requires large.hintLines.Some? && Indexed(large.hintLines.value, hints, large.full)
    requires plain == MatchLogSet(large.full, [], None)
    requires AllFoldSafe(rules[r].patterns, large.full) && AllFoldSafe(rules[r].excludes, large.full)
    requires AllLineLocal(rules[r].excludes)
    ensures var fast := MatchesRuleViews(rules[r], BuildRulePatternHints(rules)[r], large);
            var naive := MatchesRuleViews(rules[r], RuleHints([], []), plain);
            (naive ==> fast) && (AllLineLocal(rules[r].patterns) ==> (fast <==> naive))
  {
    var rule, all := rules[r], BuildRulePatternHints(rules);
    forall i | 0 <= i < |rule.patterns|
      ensures PatternMatches(rule.patterns[i], NO_HINT, plain)
          ==> PatternMatches(rule.patterns[i], RegexMatchHint(rule.patterns[i]), large)
      ensures LineLocal(rule.patterns[i]) ==>
                (PatternMatches(rule.patterns[i], NO_HINT, plain)
                 <==> PatternMatches(rule.patterns[i], RegexMatchHint(rule.patterns[i]), large))
    {
      assert rule.patterns[i] in rule.patterns;
      HintRegistered(all, r, rule.patterns, i);
      PatternVerdict(rule.patterns[i], hints, large, plain);
    }
    forall i | 0 <= i < |rule.excludes|
      ensures PatternMatches(rule.excludes[i], NO_HINT, plain)
         <==> PatternMatches(rule.excludes[i], RegexMatchHint(rule.excludes[i]), large)
    {
      assert rule.excludes[i] in rule.excludes;
      HintRegistered(all, r, rule.excludes, i);
      PatternVerdict(rule.excludes[i], hints, large, plain);
    }
  }

  // ---------------------------------------------------------------- what a verdict says about the logs

  /** The pattern matches one of the logs that are not empty, or the canonical form of one when that is not. */
  ghost predicate MatchesLogs(e: Regexp, logs: seq<Text>, canonical: Text -> Text) {
    exists log :: log in logs && log != [] && (MatchString(e, log) || (canonical(log) != [] && MatchString(e, canonical(log))))
  }

  /** Some pattern of the rule matches the logs, and none of its excludes does. */
  ghost predicate RuleHolds(rule: Rule, logs: seq<Text>, canonical: Text -> Text) {
    && (exists e :: e in rule.patterns && MatchesLogs(e, logs, canonical))
    && (forall e :: e in rule.excludes ==> !MatchesLogs(e, logs, canonical))
  }

  lemma {:induction false} ViewsMember(texts: seq<Text>, v: Text)
    ensures v in Views(texts) <==> v in texts && v != []
  {
    if texts == [] {
    } else {
      var front, last := texts[..|texts| - 1], texts[|texts| - 1];
      ViewsMember(front, v);
      assert texts == front + [last];
      if last in Views(front) {
        ViewsMember(front, last);
      }
    }
  }

  lemma {:induction false} SourcesMember(logs: seq<Text>, canonical: Text -> Text, v: Text)
    ensures v in Sources(logs, canonical) <==> exists log :: log in logs && log != [] && (v == log || v == canonical(log))
  {
    if logs == [] {
    } else {
      var front, last := logs[..|logs| - 1], logs[|logs| - 1];
      SourcesMember(front, canonical, v);
      assert logs == front + [last];
      assert forall log :: log in logs <==> log in front || log == last;
    }
  }

  /** A pattern matches some view exactly when it matches the logs. */
  lemma ViewsAreLogs(e: Regexp, logs: seq<Text>, canonical: Text -> Text)
    ensures MatchesViews(e, Views(Sources(logs, canonical))) <==> MatchesLogs(e, logs, canonical)
  {
    var sources := Sources(logs, canonical);
    if MatchesViews(e, Views(sources)) {
      var v :| v in Views(sources) && MatchString(e, v);
      ViewsMember(sources, v);
      SourcesMember(logs, canonical, v);
    }
    if MatchesLogs(e, logs, canonical) {
      var log :| log in logs && log != []
                 && (MatchString(e, log) || (canonical(log) != [] && MatchString(e, canonical(log))));
      var v := if MatchString(e, log) then log else canonical(log);
      SourcesMember(logs, canonical, v);
      ViewsMember(sources, v);
    }
  }

  /** The plain verdict is about the logs alone. */
  lemma NaiveIs(rule: Rule, logs: seq<Text>, canonical: Text -> Text)
    ensures Naive(rule, logs, canonical) <==> RuleHolds(rule, logs, canonical)
  {
    var plain := MatchLogSet(Views(Sources(logs, canonical)), [], None);
    forall e ensures PatternMatches(e, NO_HINT, plain) <==> MatchesLogs(e, logs, canonical) {
      ViewsAreLogs(e, logs, canonical);
    }
    forall i | 0 <= i < |rule.patterns| ensures rule.patterns[i] in rule.patterns {}
    forall i | 0 <= i < |rule.excludes| ensures rule.excludes[i] in rule.excludes {}
    assert forall e :: e in rule.patterns <==> exists i :: 0 <= i < |rule.patterns| && rule.patterns[i] == e;
    assert forall e :: e in rule.excludes <==> exists i :: 0 <= i < |rule.excludes| && rule.excludes[i] == e;
  }

  /** The verdict of running every pattern of the rule on every full view. */
  ghost predicate Naive(rule: Rule, logs: seq<Text>, canonical: Text -> Text) {
    MatchesRuleViews(rule, RuleHints([], []), MatchLogSet(Views(Sources(logs, canonical)), [], None))
  }

  /** Some log is too large to try the patterns on it directly. */
  predicate Large(logs: seq<Text>) {
    exists log :: log in logs && ByteLength(log) > MAX_DIRECT_MATCH_LOG_BYTES
  }

  function RegisteredLiterals(rules: seq<Rule>): set<Text> {
    set h | h in RuleLiterals(BuildRulePatternHints(rules)) && Usable(h)
  }

  /** What large logs are prepared to: the views, and the index over the literals of the rules. */
  ghost predicate Prepared(rules: seq<Rule>, logs: seq<Text>, canonical: Text -> Text, diagnostic: Text -> bool,
                           prepared: MatchLogSet) {
    && prepared.full == Views(Sources(logs, canonical))
    && prepared.fast == Views(CompactSources(logs, canonical, diagnostic))
    && prepared.hintLines.Some?
    && Indexed(prepared.hintLines.value, RegisteredLiterals(rules), prepared.full)
  }

  function RuleHintsAt(hints: seq<RuleHints>, r: nat): RuleHints {
    if r < |hints| then hints[r] else RuleHints([], [])
  }

  /** The logs and their canonical forms have no rune that folds into ASCII, or the pattern has no case-insensitive k or
      s. */
  ghost predicate LogsFoldSafe(e: Regexp, logs: seq<Text>, canonical: Text -> Text) {
    || !FoldRisk(e)
    || forall log :: log in logs && log != [] ==> PlainSpan(log, 0, |log|) && PlainSpan(canonical(log), 0, |canonical(log)|)
  }

  ghost predicate RuleFoldSafe(rule: Rule, logs: seq<Text>, canonical: Text -> Text) {
    forall e :: e in rule.patterns || e in rule.excludes ==> LogsFoldSafe(e, logs, canonical)
  }

  lemma SafeViews(es: seq<Regexp>, logs: seq<Text>, canonical: Text -> Text)
    requires forall e :: e in es ==> LogsFoldSafe(e, logs, canonical)
    ensures AllFoldSafe(es, Views(Sources(logs, canonical)))
  {
    forall e, v | e in es && FoldRisk(e) && v in Views(Sources(logs, canonical)) ensures PlainSpan(v, 0, |v|) {
      ViewsMember(Sources(logs, canonical), v);
      SourcesMember(logs, canonical, v);
      assert LogsFoldSafe(e, logs, canonical);
    }
  }

  /** Some log takes more than 96 KiB. */
  lemma LargeIs(logs: seq<Text>)
    ensures Large(logs) <==> exists i :: 0 <= i < |logs| && ByteLength(logs[i]) > 96 * 1024
  {
    if Large(logs) {
      var log :| log in logs && ByteLength(log) > MAX_DIRECT_MATCH_LOG_BYTES;
      var i :| 0 <= i < |logs| && logs[i] == log;
      assert ByteLength(logs[i]) > 96 * 1024;
    }
  }

  /** Prepare the logs for the rules: directly, or when a log is large with an index over the literals
      of all rules. Either way a verdict says whether the rule holds of the logs: for every rule while the logs
      are small, and on large logs for every rule whose patterns are line-local; a rule with other
      patterns is never lost, as long as its excludes are line-local. */
  method PrepareForRules(rules: seq<Rule>, logs: seq<Text>, canonical: Text -> Text, diagnostic: Text -> bool)
    returns (hints: seq<RuleHints>, prepared: MatchLogSet)
    ensures Large(logs) ==>
              hints == BuildRulePatternHints(rules) && Prepared(rules, logs, canonical, diagnostic, prepared)
    ensures !Large(logs) ==>
              forall r :: 0 <= r < |rules| ==>
                (MatchesRuleViews(rules[r], RuleHintsAt(hints, r), prepared) <==> RuleHolds(rules[r], logs, canonical))
    ensures forall r :: 0 <= r < |rules| && RuleFoldSafe(rules[r], logs, canonical)
                && AllLineLocal(rules[r].excludes) && RuleHolds(rules[r], logs, canonical)
              ==> MatchesRuleViews(rules[r], RuleHintsAt(hints, r), prepared)
    ensures forall r :: 0 <= r < |rules| && RuleFoldSafe(rules[r], logs, canonical)
                && AllLineLocal(rules[r].excludes) && AllLineLocal(rules[r].patterns)
              ==> (MatchesRuleViews(rules[r], RuleHintsAt(hints, r), prepared) <==> RuleHolds(rules[r], logs, canonical))
  {
    var large := false;
    for i := 0 to |logs|
      invariant large ==> Large(logs)
      invariant !large ==> forall k :: 0 <= k < i ==> ByteLength(logs[k]) <= MAX_DIRECT_MATCH_LOG_BYTES
    {
      if ByteLength(logs[i]) > MAX_DIRECT_MATCH_LOG_BYTES {
        large := true;
        break;
      }
    }
    if !large {
      hints := [];
      prepared := PrepareMatchLogs(null, logs, canonical, diagnostic);
      forall r | 0 <= r < |rules| ensures Naive(rules[r], logs, canonical) <==> RuleHolds(rules[r], logs, canonical) {
        NaiveIs(rules[r], logs, canonical);
      }
      return;
    }
    hints := BuildRulePatternHints(rules);
    var matcher := new LiteralMatcher(hints);
    prepared := PrepareMatchLogs(matcher, logs, canonical, diagnostic);
    assert matcher.hints == RegisteredLiterals(rules);
    forall r | 0 <= r < |rules| && RuleFoldSafe(rules[r], logs, canonical) && AllLineLocal(rules[r].excludes)
      ensures RuleHolds(rules[r], logs, canonical) ==> MatchesRuleViews(rules[r], hints[r], prepared)
      ensures AllLineLocal(rules[r].patterns) ==>
                (MatchesRuleViews(rules[r], hints[r], prepared) <==> RuleHolds(rules[r], logs, canonical))
    {
      NaiveIs(rules[r], logs, canonical);
      SafeViews(rules[r].patterns, logs, canonical);
      SafeViews(rules[r].excludes, logs, canonical);
      RuleVerdict(rules, r, matcher.hints, prepared, MatchLogSet(prepared.full, [], None));
    }
  }
}
