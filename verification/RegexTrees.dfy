/** Regular-expression trees, what they match, and the two analyses the prefilter runs on them. */
module RegexTrees {
  import opened Options
  import opened Texts

  datatype Op =
    | OpNoMatch | OpEmptyMatch
    | OpLiteral(runes: seq<nat>, foldCase: bool)
    | OpCharClass(ranges: seq<nat>)
    | OpAnyCharNotNL | OpAnyChar
    | OpBeginLine | OpEndLine | OpBeginText | OpEndText
    | OpWordBoundary | OpNoWordBoundary
    | OpCapture | OpStar | OpPlus | OpQuest
    | OpRepeat(min: int, max: int)   // a maximum of -1 stands for no limit
    | OpConcat | OpAlternate

  datatype Regexp = Regexp(op: Op, sub: seq<Regexp>)

  // ---------------------------------------------------------------- what a tree matches

  const KELVIN: nat := 0x212A
  const LONG_S: nat := 0x17F

  /** Simple case folding as far as it reaches the ASCII letters: the Kelvin sign folds with k and
      the long s with s. */
  function Fold(u: nat): nat {
    if u == KELVIN then 107 else if u == LONG_S then 115 else LowerUnit(u)
  }

  predicate RuneMatches(r: nat, foldCase: bool, u: nat) {
    if foldCase then Fold(r) == Fold(u) else r == u
  }

  predicate InRanges(ranges: seq<nat>, u: nat) {
    exists i :: 0 <= i < |ranges| / 2 && ranges[2 * i] <= u <= ranges[2 * i + 1]
  }

  predicate IsWordUnit(u: nat) {
    48 <= u <= 57 || 65 <= u <= 90 || u == 95 || 97 <= u <= 122
  }

  predicate WordAt(t: Text, k: int) {
    0 <= k < |t| && IsWordUnit(t[k])
  }

  predicate AtWordBoundary(t: Text, i: nat) {
    WordAt(t, i - 1) != WordAt(t, i)
  }

  /** The span of t from i to j is matched by the tree. */
  ghost predicate Matches(e: Regexp, t: Text, i: nat, j: nat)
    requires i <= j <= |t|
    decreases e, 1
  {
    match e.op
    case OpNoMatch => false
    case OpEmptyMatch => i == j
    case OpLiteral(runes, foldCase) =>
      j - i == |runes| && forall k :: 0 <= k < |runes| ==> RuneMatches(runes[k], foldCase, t[i + k])
    case OpCharClass(ranges) => j == i + 1 && InRanges(ranges, t[i])
    case OpAnyCharNotNL => j == i + 1 && t[i] != NEWLINE
    case OpAnyChar => j == i + 1
    case OpBeginLine => i == j && AtLineStart(t, i)
    case OpEndLine => i == j && AtLineEnd(t, i)
    case OpBeginText => i == j == 0
    case OpEndText => i == j == |t|
    case OpWordBoundary => i == j && AtWordBoundary(t, i)
    case OpNoWordBoundary => i == j && !AtWordBoundary(t, i)
    case OpCapture => |e.sub| == 1 && Matches(e.sub[0], t, i, j)
    case OpStar => |e.sub| == 1 && exists n: nat :: Iterates(e.sub[0], n, t, i, j)
    case OpPlus => |e.sub| == 1 && exists n: nat :: n >= 1 && Iterates(e.sub[0], n, t, i, j)
    case OpQuest => |e.sub| == 1 && (i == j || Matches(e.sub[0], t, i, j))
    case OpRepeat(min, max) =>
      |e.sub| == 1 && exists n: nat :: min <= n && (max < 0 || n <= max) && Iterates(e.sub[0], n, t, i, j)
    case OpConcat => MatchesAll(e.sub, t, i, j)
    case OpAlternate => exists k :: 0 <= k < |e.sub| && Matches(e.sub[k], t, i, j)
  }

  /** n consecutive matches of the same tree. */
  ghost predicate Iterates(e: Regexp, n: nat, t: Text, i: nat, j: nat)
    requires i <= j <= |t|
    decreases e, 2, n
  {
    if n == 0 then i == j
    else exists k :: i <= k <= j && Matches(e, t, i, k) && Iterates(e, n - 1, t, k, j)
  }

  /** Consecutive matches of the trees in order. */
  ghost predicate MatchesAll(es: seq<Regexp>, t: Text, i: nat, j: nat)
    requires i <= j <= |t|
    decreases es, 0
  {
    if es == [] then i == j
    else exists k :: i <= k <= j && Matches(es[0], t, i, k) && MatchesAll(es[1..], t, k, j)
  }

  /** The end of the first match in a row of matches. */
  lemma FirstMatch(es: seq<Regexp>, t: Text, i: nat, j: nat) returns (k: nat)
    requires es != [] && i <= j <= |t| && MatchesAll(es, t, i, j)
    ensures i <= k <= j && Matches(es[0], t, i, k) && MatchesAll(es[1..], t, k, j)
  {
    k :| i <= k <= j && Matches(es[0], t, i, k) && MatchesAll(es[1..], t, k, j);
  }

  /** The pattern is found somewhere in the text. */
  ghost predicate MatchString(e: Regexp, t: Text) {
    exists i: nat, j: nat :: i <= j <= |t| && Matches(e, t, i, j)
  }

  // ---------------------------------------------------------------- newline analysis

  function CanMatchNewline(e: Regexp): bool
    decreases e, 1
  {
    || e.op == OpAnyChar
    || (e.op.OpLiteral? && NEWLINE in e.op.runes)
    || (e.op.OpCharClass? && InRanges(e.op.ranges, NEWLINE))
    || AnyCanMatchNewline(e.sub)
  }

  function AnyCanMatchNewline(es: seq<Regexp>): bool
    decreases es, 0
  {
    es != [] && (CanMatchNewline(es[0]) || AnyCanMatchNewline(es[1..]))
  }

  lemma {:induction false} NewlineFreeSubs(es: seq<Regexp>, k: nat)
    requires k < |es| && !AnyCanMatchNewline(es)
    ensures !CanMatchNewline(es[k])
  {
    if k == 0 {
    } else {
      NewlineFreeSubs(es[1..], k - 1);
    }
  }

  /** A tree the analysis clears never matches a span with a newline in it. */
  lemma {:induction false} NewlineSound(e: Regexp, t: Text, i: nat, j: nat)
    requires i <= j <= |t| && Matches(e, t, i, j) && !CanMatchNewline(e)
    ensures NewlineFree(t, i, j)
    decreases e, 1
  {
    if |e.sub| > 0 {
      NewlineFreeSubs(e.sub, 0);
    }
    match e.op
    case OpLiteral(runes, foldCase) =>
      forall k | i <= k < j ensures t[k] != NEWLINE {
        assert RuneMatches(runes[k - i], foldCase, t[i + (k - i)]);
      }
    case OpCapture => NewlineSound(e.sub[0], t, i, j);
    case OpStar =>
      var n: nat :| Iterates(e.sub[0], n, t, i, j);
      NewlineSoundIterates(e.sub[0], n, t, i, j);
    case OpPlus =>
      var n: nat :| n >= 1 && Iterates(e.sub[0], n, t, i, j);
      NewlineSoundIterates(e.sub[0], n, t, i, j);
    case OpQuest =>
      if i < j {
        NewlineSound(e.sub[0], t, i, j);
      }
    case OpRepeat(min, max) =>
      var n: nat :| min <= n && (max < 0 || n <= max) && Iterates(e.sub[0], n, t, i, j);
      NewlineSoundIterates(e.sub[0], n, t, i, j);
    case OpConcat => NewlineSoundAll(e.sub, t, i, j);
    case OpAlternate =>
      var k :| 0 <= k < |e.sub| && Matches(e.sub[k], t, i, j);
      NewlineFreeSubs(e.sub, k);
      NewlineSound(e.sub[k], t, i, j);
    case _ =>
  }

  lemma {:induction false} NewlineSoundIterates(e: Regexp, n: nat, t: Text, i: nat, j: nat)
    requires i <= j <= |t| && Iterates(e, n, t, i, j) && !CanMatchNewline(e)
    ensures NewlineFree(t, i, j)
    decreases e, 2, n
  {
    if n == 0 {
    } else {
      var k :| i <= k <= j && Matches(e, t, i, k) && Iterates(e, n - 1, t, k, j);
      NewlineSound(e, t, i, k);
      NewlineSoundIterates(e, n - 1, t, k, j);
    }
  }

  lemma {:induction false} NewlineSoundAll(es: seq<Regexp>, t: Text, i: nat, j: nat)
    requires i <= j <= |t| && MatchesAll(es, t, i, j) && !AnyCanMatchNewline(es)
    ensures NewlineFree(t, i, j)
    decreases es, 0
  {
    if es == [] {
    } else {
      var k :| i <= k <= j && Matches(es[0], t, i, k) && MatchesAll(es[1..], t, k, j);
      NewlineSound(es[0], t, i, k);
      NewlineSoundAll(es[1..], t, k, j);
    }
  }

  // ---------------------------------------------------------------- matching inside one line

  function HasTextAnchor(e: Regexp): bool
    decreases e, 1
  {
    e.op == OpBeginText || e.op == OpEndText || AnyHasTextAnchor(e.sub)
  }

  function AnyHasTextAnchor(es: seq<Regexp>): bool
    decreases es, 0
  {
    es != [] && (HasTextAnchor(es[0]) || AnyHasTextAnchor(es[1..]))
  }

  lemma {:induction false} AnchorFreeSub(es: seq<Regexp>, k: nat)
    requires k < |es| && !AnyHasTextAnchor(es)
    ensures !HasTextAnchor(es[k])
  {
    if k == 0 {
    } else {
      AnchorFreeSub(es[1..], k - 1);
    }
  }

  /** Position x of t looks like position x + d of u: same unit, same line ends, same word boundary. */
  predicate SameSite(t: Text, u: Text, d: int, x: nat, last: nat)
    requires x <= last <= |t| && 0 <= x + d && last + d <= |u|
  {
    && (x < last ==> t[x] == u[x + d])
    && (AtLineStart(t, x) <==> AtLineStart(u, x + d))
    && (AtLineEnd(t, x) <==> AtLineEnd(u, x + d))
    && (AtWordBoundary(t, x) <==> AtWordBoundary(u, x + d))
  }

  /** The stretch from lo to hi of t looks like the same stretch of u shifted by d; with `ends` set,
      an end of t that lies in the stretch is also an end of u. */
  predicate SameStretch(t: Text, u: Text, d: int, lo: nat, hi: nat, ends: bool) {
    && lo <= hi <= |t| && 0 <= lo + d && hi + d <= |u|
    && (forall x :: lo <= x <= hi ==> SameSite(t, u, d, x, hi))
    && (ends && lo == 0 ==> d == 0)
    && (ends && hi == |t| ==> hi + d == |u|)
  }

  /** Matching depends only on the stretch it happens in. */
  lemma {:induction false} MatchMoves(e: Regexp, t: Text, u: Text, d: int, lo: nat, hi: nat, ends: bool, i: nat, j: nat)
    requires SameStretch(t, u, d, lo, hi, ends) && lo <= i <= j <= hi
    requires (ends || !HasTextAnchor(e)) && Matches(e, t, i, j)
    ensures Matches(e, u, i + d, j + d)
    decreases e, 1
  {
    assert SameSite(t, u, d, i, hi);
    if |e.sub| > 0 && !ends {
      AnchorFreeSub(e.sub, 0);
    }
    match e.op
    case OpLiteral(runes, foldCase) =>
      forall k | 0 <= k < |runes| ensures RuneMatches(runes[k], foldCase, u[i + d + k]) {
        assert SameSite(t, u, d, i + k, hi);
        assert RuneMatches(runes[k], foldCase, t[i + k]);
      }
    case OpCapture => MatchMoves(e.sub[0], t, u, d, lo, hi, ends, i, j);
    case OpStar =>
      var n: nat :| Iterates(e.sub[0], n, t, i, j);
      IteratesMove(e.sub[0], n, t, u, d, lo, hi, ends, i, j);
    case OpPlus =>
      var n: nat :| n >= 1 && Iterates(e.sub[0], n, t, i, j);
      IteratesMove(e.sub[0], n, t, u, d, lo, hi, ends, i, j);
    case OpQuest =>
      if Matches(e.sub[0], t, i, j) {
        MatchMoves(e.sub[0], t, u, d, lo, hi, ends, i, j);
      }
    case OpRepeat(min, max) =>
      var n: nat :| min <= n && (max < 0 || n <= max) && Iterates(e.sub[0], n, t, i, j);
      IteratesMove(e.sub[0], n, t, u, d, lo, hi, ends, i, j);
    case OpConcat => MatchesAllMove(e.sub, t, u, d, lo, hi, ends, i, j);
    case OpAlternate =>
      var k :| 0 <= k < |e.sub| && Matches(e.sub[k], t, i, j);
      if !ends {
        AnchorFreeSub(e.sub, k);
      }
      MatchMoves(e.sub[k], t, u, d, lo, hi, ends, i, j);
    case _ =>
  }

  lemma {:induction false} IteratesMove(e: Regexp, n: nat, t: Text, u: Text, d: int, lo: nat, hi: nat, ends: bool,
                                        i: nat, j: nat)
    requires SameStretch(t, u, d, lo, hi, ends) && lo <= i <= j <= hi
    requires (ends || !HasTextAnchor(e)) && Iterates(e, n, t, i, j)
    ensures Iterates(e, n, u, i + d, j + d)
    decreases e, 2, n
  {
    if n == 0 {
    } else {
      var k :| i <= k <= j && Matches(e, t, i, k) && Iterates(e, n - 1, t, k, j);
      MatchMoves(e, t, u, d, lo, hi, ends, i, k);
      IteratesMove(e, n - 1, t, u, d, lo, hi, ends, k, j);
    }
  }

  lemma {:induction false} MatchesAllMove(es: seq<Regexp>, t: Text, u: Text, d: int, lo: nat, hi: nat, ends: bool,
                                          i: nat, j: nat)
    requires SameStretch(t, u, d, lo, hi, ends) && lo <= i <= j <= hi
    requires (ends || !AnyHasTextAnchor(es)) && MatchesAll(es, t, i, j)
    ensures MatchesAll(es, u, i + d, j + d)
    decreases es, 0
  {
    if es == [] {
    } else {
      var k :| i <= k <= j && Matches(es[0], t, i, k) && MatchesAll(es[1..], t, k, j);
      MatchMoves(es[0], t, u, d, lo, hi, ends, i, k);
      MatchesAllMove(es[1..], t, u, d, lo, hi, ends, k, j);
    }
  }

  /** A line looks the same inside its text and alone, in both directions. */
  lemma LineLooksSame(t: Text, a: nat, b: nat)
    requires LineBounds(t, a, b)
    ensures SameStretch(t, t[a..b], 0 - a, a, b, true)
    ensures SameStretch(t[a..b], t, a, 0, b - a, false)
  {
    var line, d, width := t[a..b], 0 - a, b - a;
    forall x | a <= x <= b ensures SameSite(t, line, d, x, b) {
      assert x > a ==> line[x - a - 1] == t[x - 1];
      assert x < b ==> line[x - a] == t[x];
    }
    forall x | 0 <= x <= width ensures SameSite(line, t, a, x, width) {
      assert SameSite(t, line, d, x + a, b);
    }
  }

  /** What matches inside a line of the text also matches in the line alone; the converse needs a
      tree without begin-of-text and end-of-text anchors. */
  lemma MatchesInLine(e: Regexp, t: Text, a: nat, b: nat, i: nat, j: nat)
    requires LineBounds(t, a, b) && a <= i <= j <= b
    ensures Matches(e, t, i, j) ==> Matches(e, t[a..b], i - a, j - a)
    ensures !HasTextAnchor(e) && Matches(e, t[a..b], i - a, j - a) ==> Matches(e, t, i, j)
  {
    LineLooksSame(t, a, b);
    if Matches(e, t, i, j) {
      MatchMoves(e, t, t[a..b], 0 - a, a, b, true, i, j);
    }
    if !HasTextAnchor(e) && Matches(e, t[a..b], i - a, j - a) {
      MatchMoves(e, t[a..b], t, a, 0, b - a, false, i - a, j - a);
    }
  }

  // ---------------------------------------------------------------- literal cover

  /** Literals of which every match contains at least one, after lowercasing. */
  function LiteralCover(e: Regexp): Option<seq<Text>>
    decreases e, 1
  {
    match e.op
    case OpLiteral(runes, foldCase) =>
      if runes == [] || !IsAscii(runes) then None else Some([Lower(runes)])
    case OpCapture => if |e.sub| != 1 then None else LiteralCover(e.sub[0])
    case OpConcat =>
      var best := BestCover(e.sub, []);
      if best == [] then None else Some(best)
    case OpAlternate =>
      var merged := MergedCover(e.sub, []);
      if merged.None? || merged.value == [] then None else merged
    case OpPlus => if |e.sub| != 1 then None else LiteralCover(e.sub[0])
    case OpRepeat(min, max) => if min < 1 || |e.sub| != 1 then None else LiteralCover(e.sub[0])
    case _ => None
  }

  /** The preferred cover among the parts of a concatenation; empty when no part has one. */
  function BestCover(es: seq<Regexp>, best: seq<Text>): seq<Text>
    decreases es, 0
  {
    if es == [] then best
    else
      var candidate := LiteralCover(es[0]);
      if candidate.Some? && BetterCover(candidate.value, best) then BestCover(es[1..], candidate.value)
      else BestCover(es[1..], best)
  }

  /** The covers of all alternatives without repetition; none when an alternative has none. */
  function MergedCover(es: seq<Regexp>, merged: seq<Text>): Option<seq<Text>>
    decreases es, 0
  {
    if es == [] then Some(merged)
    else
      var candidate := LiteralCover(es[0]);
      if candidate.None? then None else MergedCover(es[1..], AddNew(merged, candidate.value))
  }

  function AddNew(merged: seq<Text>, hints: seq<Text>): (r: seq<Text>)
    ensures forall h :: h in r <==> h in merged || h in hints
    ensures (forall i, j :: 0 <= i < j < |merged| ==> merged[i] != merged[j])
        ==> forall i, j :: 0 <= i < j < |r| ==> r[i] != r[j]
    decreases |hints|
  {
    if hints == [] then merged
    else AddNew(if hints[0] in merged then merged else merged + [hints[0]], hints[1..])
  }

  predicate BetterCover(candidate: seq<Text>, current: seq<Text>) {
    candidate != [] &&
    (current == [] ||
     var cm, wm := MinHintLength(candidate, 0), MinHintLength(current, 0);
     if cm != wm then cm > wm else |candidate| < |current|)
  }

  function MinHintLength(hints: seq<Text>, min: nat): nat {
    if hints == [] then min
    else MinHintLength(hints[1..], if min == 0 || |hints[0]| < min then |hints[0]| else min)
  }

  /** Runes whose case folding leaves ASCII, which lowercasing ASCII bytes does not undo. */
  predicate FoldsToAscii(u: nat) {
    u == KELVIN || u == LONG_S
  }

  /** A case-insensitive literal with a letter that such a rune folds to. */
  function FoldRisk(e: Regexp): bool
    decreases e, 1
  {
    (e.op.OpLiteral? && e.op.foldCase && Foldable(e.op.runes)) || AnyFoldRisk(e.sub)
  }

  predicate Foldable(runes: seq<nat>) {
    exists k :: 0 <= k < |runes| && FoldsToAscii(AlternateFold(runes[k]))
  }

  /** A rune with the same folding as r, outside ASCII when there is one. */
  function AlternateFold(r: nat): nat {
    if Fold(r) == 107 then KELVIN else if Fold(r) == 115 then LONG_S else r
  }

  function AnyFoldRisk(es: seq<Regexp>): bool
    decreases es, 0
  {
    es != [] && (FoldRisk(es[0]) || AnyFoldRisk(es[1..]))
  }

  lemma {:induction false} FoldSafeSub(es: seq<Regexp>, k: nat)
    requires k < |es| && !AnyFoldRisk(es)
    ensures !FoldRisk(es[k])
  {
    if k == 0 {
    } else {
      FoldSafeSub(es[1..], k - 1);
    }
  }

  predicate PlainSpan(t: Text, i: nat, j: nat)
    requires i <= j <= |t|
  {
    forall k :: i <= k < j ==> !FoldsToAscii(t[k])
  }

  /** Some literal of the list occurs in the lowercased span. */
  ghost predicate Covered(hints: seq<Text>, t: Text, i: nat, j: nat)
    requires i <= j <= |t|
  {
    exists h :: h in hints && Contains(Lower(t[i..j]), h)
  }

  lemma CoveredWiden(hints: seq<Text>, t: Text, i: nat, j: nat, i': nat, j': nat)
    requires i' <= i <= j <= j' <= |t| && Covered(hints, t, i, j)
    ensures Covered(hints, t, i', j')
  {
    var h :| h in hints && Contains(Lower(t[i..j]), h);
    var wide := Lower(t[i'..j']);
    SliceOfSlice(t, i', j', i - i', j - i');
    LowerSlice(t[i'..j'], i - i', j - i');
    ContainsWiden(wide, i - i', j - i', h);
  }

  lemma LiteralCovered(runes: seq<nat>, foldCase: bool, t: Text, i: nat, j: nat)
    requires i <= j <= |t| && j - i == |runes| && IsAscii(runes)
    requires PlainSpan(t, i, j) || !(foldCase && Foldable(runes))
    requires forall k :: 0 <= k < |runes| ==> RuneMatches(runes[k], foldCase, t[i + k])
    ensures Covered([Lower(runes)], t, i, j)
  {
    forall k | 0 <= k < |runes| ensures LowerUnit(t[i + k]) == LowerUnit(runes[k]) {
      assert RuneMatches(runes[k], foldCase, t[i + k]);
      assert FoldsToAscii(t[i + k]) && foldCase ==> FoldsToAscii(AlternateFold(runes[k]));
    }
    var low := Lower(t[i..j]);
    assert low == Lower(runes);
    assert OccursAt(low, low, 0);
    assert Lower(runes) in [Lower(runes)];
  }

  /** Whenever a cover is found, every matched span contains one of its literals, unless a rune that
      folds into ASCII stands in for a letter of a case-insensitive literal. */
  lemma {:induction false} CoverSound(e: Regexp, t: Text, i: nat, j: nat)
    requires i <= j <= |t| && Matches(e, t, i, j)
    requires PlainSpan(t, i, j) || !FoldRisk(e)
    requires LiteralCover(e).Some?
    ensures Covered(LiteralCover(e).value, t, i, j)
    decreases e, 1
  {
    if |e.sub| > 0 && !FoldRisk(e) {
      FoldSafeSub(e.sub, 0);
    }
    match e.op
    case OpLiteral(runes, foldCase) => LiteralCovered(runes, foldCase, t, i, j);
    case OpCapture => CoverSound(e.sub[0], t, i, j);
    case OpPlus =>
      var n: nat :| n >= 1 && Iterates(e.sub[0], n, t, i, j);
      CoverSoundIterates(e.sub[0], n, t, i, j);
    case OpRepeat(min, max) =>
      var n: nat :| min <= n && (max < 0 || n <= max) && Iterates(e.sub[0], n, t, i, j);
      CoverSoundIterates(e.sub[0], n, t, i, j);
    case OpConcat => CoverSoundBest(e.sub, [], t, i, i, j);
    case OpAlternate =>
      var k :| 0 <= k < |e.sub| && Matches(e.sub[k], t, i, j);
      if !FoldRisk(e) {
        FoldSafeSub(e.sub, k);
      }
      CoverSoundMerged(e.sub, [], k, t, i, j);
  }

  lemma {:induction false} CoverSoundIterates(e: Regexp, n: nat, t: Text, i: nat, j: nat)
    requires i <= j <= |t| && n >= 1 && Iterates(e, n, t, i, j)
    requires PlainSpan(t, i, j) || !FoldRisk(e)
    requires LiteralCover(e).Some?
    ensures Covered(LiteralCover(e).value, t, i, j)
    decreases e, 2
  {
    var k :| i <= k <= j && Matches(e, t, i, k) && Iterates(e, n - 1, t, k, j);
    CoverSound(e, t, i, k);
    CoveredWiden(LiteralCover(e).value, t, i, k, i, j);
  }

  /** Whichever part is picked, its literals are found in the span the part matches. */
  lemma {:induction false} CoverSoundBest(es: seq<Regexp>, best: seq<Text>, t: Text, start: nat, i: nat, j: nat)
    requires start <= i <= j <= |t| && MatchesAll(es, t, i, j)
    requires PlainSpan(t, start, j) || !AnyFoldRisk(es)
    requires best != [] ==> Covered(best, t, start, i)
    ensures var r := BestCover(es, best); r != [] ==> Covered(r, t, start, j)
    decreases es, 0
  {
    if es == [] {
      return;
    }
    var k :| i <= k <= j && Matches(es[0], t, i, k) && MatchesAll(es[1..], t, k, j);
    var candidate := LiteralCover(es[0]);
    if candidate.Some? && BetterCover(candidate.value, best) {
      CoverSound(es[0], t, i, k);
      CoveredWiden(candidate.value, t, i, k, start, k);
      CoverSoundBest(es[1..], candidate.value, t, start, k, j);
    } else {
      if best != [] {
        CoveredWiden(best, t, start, i, start, k);
      }
      CoverSoundBest(es[1..], best, t, start, k, j);
    }
  }

  lemma {:induction false} MergedKeeps(es: seq<Regexp>, merged: seq<Text>)
    requires MergedCover(es, merged).Some?
    ensures forall h :: h in merged ==> h in MergedCover(es, merged).value
    decreases es, 0
  {
    if es == [] {
    } else {
      MergedKeeps(es[1..], AddNew(merged, LiteralCover(es[0]).value));
    }
  }

  lemma {:induction false} CoverSoundMerged(es: seq<Regexp>, merged: seq<Text>, k: nat, t: Text, i: nat, j: nat)
    requires k < |es| && i <= j <= |t| && Matches(es[k], t, i, j)
    requires PlainSpan(t, i, j) || !FoldRisk(es[k])
    requires MergedCover(es, merged).Some?
    ensures Covered(MergedCover(es, merged).value, t, i, j)
    decreases es, 0
  {
    var candidate := LiteralCover(es[0]).value;
    var more := AddNew(merged, candidate);
    if k == 0 {
      CoverSound(es[0], t, i, j);
      var h :| h in candidate && Contains(Lower(t[i..j]), h);
      MergedKeeps(es[1..], more);
      assert h in more;
    } else {
      CoverSoundMerged(es[1..], more, k - 1, t, i, j);
    }
  }

  /** Every literal of a cover is non-empty ASCII, so the automaton can report it. */
  lemma {:induction false} CoverUsable(e: Regexp)
    requires LiteralCover(e).Some?
    ensures forall h :: h in LiteralCover(e).value ==> h != [] && IsAscii(h)
    ensures LiteralCover(e).value != []
    decreases e, 1
  {
    match e.op
    case OpLiteral(runes, foldCase) =>
    case OpCapture => CoverUsable(e.sub[0]);
    case OpPlus => CoverUsable(e.sub[0]);
    case OpRepeat(min, max) => CoverUsable(e.sub[0]);
    case OpConcat => BestUsable(e.sub, []);
    case OpAlternate => MergedUsable(e.sub, []);
  }

  lemma {:induction false} BestUsable(es: seq<Regexp>, best: seq<Text>)
    requires forall h :: h in best ==> h != [] && IsAscii(h)
    ensures forall h :: h in BestCover(es, best) ==> h != [] && IsAscii(h)
    decreases es, 0
  {
    if es == [] {
    } else {
      var candidate := LiteralCover(es[0]);
      if candidate.Some? && BetterCover(candidate.value, best) {
        CoverUsable(es[0]);
        BestUsable(es[1..], candidate.value);
      } else {
        BestUsable(es[1..], best);
      }
    }
  }

  lemma {:induction false} MergedUsable(es: seq<Regexp>, merged: seq<Text>)
    requires MergedCover(es, merged).Some?
    requires forall h :: h in merged ==> h != [] && IsAscii(h)
    ensures forall h :: h in MergedCover(es, merged).value ==> h != [] && IsAscii(h)
    decreases es, 0
  {
    if es == [] {
    } else {
      CoverUsable(es[0]);
      MergedUsable(es[1..], AddNew(merged, LiteralCover(es[0]).value));
    }
  }
}
