/** Laws of the regular-expression trees: what the operators mean in terms of each other, and which trees have a cover. */
module RegexLaws {
  import opened Options
  import opened Texts
  import opened RegexTrees

  function Star(e: Regexp): Regexp {
    Regexp(OpStar, [e])
  }

  function Plus(e: Regexp): Regexp {
    Regexp(OpPlus, [e])
  }

  function Quest(e: Regexp): Regexp {
    Regexp(OpQuest, [e])
  }

  function Repeat(e: Regexp, min: int, max: int): Regexp {
    Regexp(OpRepeat(min, max), [e])
  }

  function Concat(es: seq<Regexp>): Regexp {
    Regexp(OpConcat, es)
  }

  function Alternate(es: seq<Regexp>): Regexp {
    Regexp(OpAlternate, es)
  }

  /** The span can be split into one that the first matches and one that the second matches. */
  ghost predicate Both(a: Regexp, b: Regexp, t: Text, i: nat, j: nat)
    requires i <= j <= |t|
  {
    exists k :: i <= k <= j && Matches(a, t, i, k) && Matches(b, t, k, j)
  }

  /** A count of the matches in a repetition. */
  lemma CountOf(e: Regexp, min: nat, max: int, t: Text, i: nat, j: nat) returns (n: nat)
    requires i <= j <= |t| && Matches(Repeat(e, min, max), t, i, j)
    ensures min <= n && (max < 0 || n <= max) && Iterates(e, n, t, i, j)
  {
    assert Repeat(e, min, max).sub[0] == e;
    n :| min <= n && (max < 0 || n <= max) && Iterates(e, n, t, i, j);
  }

  lemma Counted(e: Regexp, n: nat, min: nat, max: int, t: Text, i: nat, j: nat)
    requires i <= j <= |t| && min <= n && (max < 0 || n <= max) && Iterates(e, n, t, i, j)
    ensures Matches(Repeat(e, min, max), t, i, j)
  {
    assert Repeat(e, min, max).sub[0] == e;
  }

  lemma FirstIterate(e: Regexp, n: nat, t: Text, i: nat, j: nat) returns (k: nat)
    requires i <= j <= |t| && n >= 1 && Iterates(e, n, t, i, j)
    ensures i <= k <= j && Matches(e, t, i, k) && Iterates(e, n - 1, t, k, j)
  {
    k :| i <= k <= j && Matches(e, t, i, k) && Iterates(e, n - 1, t, k, j);
  }

  lemma OneMore(e: Regexp, n: nat, t: Text, i: nat, k: nat, j: nat)
    requires i <= k <= j <= |t| && Matches(e, t, i, k) && Iterates(e, n, t, k, j)
    ensures Iterates(e, n + 1, t, i, j)
  {}

  lemma Once(e: Regexp, t: Text, i: nat, j: nat)
    requires i <= j <= |t|
    ensures Iterates(e, 0, t, i, j) <==> i == j
    ensures Iterates(e, 1, t, i, j) <==> Matches(e, t, i, j)
  {
    if Matches(e, t, i, j) {
      OneMore(e, 0, t, i, j, j);
    }
  }

  /** Star, plus and question mark are repetitions; one of at most one match is nothing or a match. */
  lemma Repetitions(e: Regexp, t: Text, i: nat, j: nat)
    requires i <= j <= |t|
    ensures Matches(Star(e), t, i, j) <==> Matches(Repeat(e, 0, -1), t, i, j)
    ensures Matches(Plus(e), t, i, j) <==> Matches(Repeat(e, 1, -1), t, i, j)
    ensures Matches(Quest(e), t, i, j) <==> Matches(Repeat(e, 0, 1), t, i, j)
    ensures Matches(Quest(e), t, i, j) <==> i == j || Matches(e, t, i, j)
  {
    assert Star(e).sub[0] == Plus(e).sub[0] == Quest(e).sub[0] == e;
    Once(e, t, i, j);
    if Matches(Repeat(e, 0, 1), t, i, j) {
      var n := CountOf(e, 0, 1, t, i, j);
      assert n == 0 || n == 1;
    }
    if Matches(Quest(e), t, i, j) {
      Counted(e, if i == j then 0 else 1, 0, 1, t, i, j);
    }
  }

  /** A repetition that may be nothing is nothing, or one match and a repetition that allows one less. */
  lemma RepeatUnrolls(e: Regexp, max: int, t: Text, i: nat, j: nat)
    requires i <= j <= |t| && max != 0
    ensures Matches(Repeat(e, 0, max), t, i, j) <==> i == j || Both(e, Repeat(e, 0, Less(max)), t, i, j)
  {
    if Matches(Repeat(e, 0, max), t, i, j) && i != j {
      var n := CountOf(e, 0, max, t, i, j);
      Once(e, t, i, j);
      var k := FirstIterate(e, n, t, i, j);
      Counted(e, n - 1, 0, Less(max), t, k, j);
    }
    if i == j {
      Once(e, t, i, j);
      Counted(e, 0, 0, max, t, i, j);
    } else if Both(e, Repeat(e, 0, Less(max)), t, i, j) {
      var k :| i <= k <= j && Matches(e, t, i, k) && Matches(Repeat(e, 0, Less(max)), t, k, j);
      var n := CountOf(e, 0, Less(max), t, k, j);
      OneMore(e, n, t, i, k, j);
      Counted(e, n + 1, 0, max, t, i, j);
    }
  }

  /** One match fewer; no limit stays none. */
  function Less(max: int): int {
    if max < 0 then max else max - 1
  }

  /** A repetition that asks for some is one match and a repetition that asks for one less and allows one less. */
  lemma RepeatAsks(e: Regexp, min: nat, max: int, t: Text, i: nat, j: nat)
    requires i <= j <= |t| && min >= 1 && (max < 0 || min <= max)
    ensures Matches(Repeat(e, min, max), t, i, j) <==> Both(e, Repeat(e, min - 1, Less(max)), t, i, j)
  {
    if Matches(Repeat(e, min, max), t, i, j) {
      var n := CountOf(e, min, max, t, i, j);
      var k := FirstIterate(e, n, t, i, j);
      Counted(e, n - 1, min - 1, Less(max), t, k, j);
    }
    if Both(e, Repeat(e, min - 1, Less(max)), t, i, j) {
      var k :| i <= k <= j && Matches(e, t, i, k) && Matches(Repeat(e, min - 1, Less(max)), t, k, j);
      var n := CountOf(e, min - 1, Less(max), t, k, j);
      OneMore(e, n, t, i, k, j);
      Counted(e, n + 1, min, max, t, i, j);
    }
  }

  /** One that asks for more than it allows matches nothing. */
  lemma RepeatNever(e: Regexp, min: int, max: int, t: Text, i: nat, j: nat)
    requires i <= j <= |t| && min > max >= 0
    ensures !Matches(Repeat(e, min, max), t, i, j)
  {
    if Matches(Repeat(e, min, max), t, i, j) {
      var n := CountOf(e, min, max, t, i, j);
    }
  }

  /** Nothing else is a star: what holds of nothing, and of one match before what it holds of, holds of every star. */
  lemma {:induction false} StarIsLeast(e: Regexp, t: Text, holds: (nat, nat) -> bool, n: nat, i: nat, j: nat)
    requires i <= j <= |t| && Iterates(e, n, t, i, j)
    requires forall k :: 0 <= k <= |t| ==> holds(k, k)
    requires forall a, k, b :: 0 <= a <= k <= b <= |t| && Matches(e, t, a, k) && holds(k, b) ==> holds(a, b)
    ensures Matches(Star(e), t, i, j) && holds(i, j)
  {
    Repetitions(e, t, i, j);
    Counted(e, n, 0, -1, t, i, j);
    if n == 0 {
      Once(e, t, i, j);
    } else {
      var k := FirstIterate(e, n, t, i, j);
      StarIsLeast(e, t, holds, n - 1, k, j);
    }
  }

  lemma AllIsConcat(es: seq<Regexp>, t: Text, i: nat, j: nat)
    requires i <= j <= |t|
    ensures Matches(Concat(es), t, i, j) <==> MatchesAll(es, t, i, j)
  {}

  lemma Prepended(es: seq<Regexp>, t: Text, i: nat, k: nat, j: nat)
    requires es != [] && i <= k <= j <= |t| && Matches(es[0], t, i, k) && MatchesAll(es[1..], t, k, j)
    ensures MatchesAll(es, t, i, j)
  {}

  /** A concatenation splits between its parts, anywhere. */
  lemma {:induction false} ConcatSplits(a: seq<Regexp>, b: seq<Regexp>, t: Text, i: nat, j: nat)
    requires i <= j <= |t|
    ensures Matches(Concat(a + b), t, i, j) <==> Both(Concat(a), Concat(b), t, i, j)
    decreases |a|
  {
    if a == [] {
      assert a + b == b;
      AllIsConcat([], t, i, i);
      assert MatchesAll([], t, i, i);
      if Both(Concat(a), Concat(b), t, i, j) {
        var m :| i <= m <= j && Matches(Concat(a), t, i, m) && Matches(Concat(b), t, m, j);
        AllIsConcat([], t, i, m);
        assert m == i;
      }
    } else {
      assert (a + b)[1..] == a[1..] + b && (a + b)[0] == a[0];
      AllIsConcat(a + b, t, i, j);
      if MatchesAll(a + b, t, i, j) {
        var k := FirstMatch(a + b, t, i, j);
        AllIsConcat(a[1..] + b, t, k, j);
        ConcatSplits(a[1..], b, t, k, j);
        var m :| k <= m <= j && Matches(Concat(a[1..]), t, k, m) && Matches(Concat(b), t, m, j);
        AllIsConcat(a[1..], t, k, m);
        Prepended(a, t, i, k, m);
        AllIsConcat(a, t, i, m);
      }
      if Both(Concat(a), Concat(b), t, i, j) {
        var m :| i <= m <= j && Matches(Concat(a), t, i, m) && Matches(Concat(b), t, m, j);
        AllIsConcat(a, t, i, m);
        var k := FirstMatch(a, t, i, m);
        AllIsConcat(a[1..], t, k, m);
        ConcatSplits(a[1..], b, t, k, j);
        AllIsConcat(a[1..] + b, t, k, j);
        Prepended(a + b, t, i, k, j);
      }
    }
  }

  /** A concatenation of one part is the part, and of none matches nothing but the empty span; an alternation matches what
      one of its alternatives does. */
  lemma SinglePart(e: Regexp, t: Text, i: nat, j: nat)
    requires i <= j <= |t|
    ensures Matches(Concat([e]), t, i, j) <==> Matches(e, t, i, j)
    ensures Matches(Concat([]), t, i, j) <==> i == j
    ensures Matches(Alternate([e]), t, i, j) <==> Matches(e, t, i, j)
    ensures !Matches(Alternate([]), t, i, j)
    ensures Matches(Regexp(OpCapture, [e]), t, i, j) <==> Matches(e, t, i, j)
  {
    assert [e][1..] == [];
    AllIsConcat([e], t, i, j);
    AllIsConcat([], t, i, j);
    if MatchesAll([e], t, i, j) {
      var k := FirstMatch([e], t, i, j);
    }
    if Matches(e, t, i, j) {
      assert MatchesAll([], t, j, j);
      Prepended([e], t, i, j, j);
      assert [e][0] == e;
    }
  }

  lemma AlternateSplits(a: seq<Regexp>, b: seq<Regexp>, t: Text, i: nat, j: nat)
    requires i <= j <= |t|
    ensures Matches(Alternate(a + b), t, i, j) <==> Matches(Alternate(a), t, i, j) || Matches(Alternate(b), t, i, j)
  {
    if k :| 0 <= k < |a| && Matches(a[k], t, i, j) {
      assert (a + b)[k] == a[k];
    }
    if k :| 0 <= k < |b| && Matches(b[k], t, i, j) {
      assert (a + b)[|a| + k] == b[k];
    }
    if k :| 0 <= k < |a + b| && Matches((a + b)[k], t, i, j) {
      assert k < |a| ==> Matches(a[k], t, i, j);
      assert k >= |a| ==> Matches(b[k - |a|], t, i, j);
    }
  }

  /** A case-sensitive literal matches exactly itself. */
  lemma LiteralIsItself(runes: seq<nat>, t: Text, i: nat, j: nat)
    requires i <= j <= |t|
    ensures Matches(Regexp(OpLiteral(runes, false), []), t, i, j) <==> t[i..j] == runes
  {}

  /** A case-insensitive one matches every other spelling with the same small letters, and k and s also as the Kelvin sign
      and the long s. */
  lemma LiteralFolds(r: nat, u: nat)
    requires r < ALPHABET
    ensures Matches(Regexp(OpLiteral([r], true), []), [u], 0, 1) <==>
              || u == r
              || (65 <= r <= 90 && u == r + 32) || (97 <= r <= 122 && u == r - 32)
              || (r in {75, 107} && u == 0x212A) || (r in {83, 115} && u == 0x17F)
  {
    assert [u][0 + 0] == u && [r][0] == r;
    assert Matches(Regexp(OpLiteral([r], true), []), [u], 0, 1) <==> RuneMatches([r][0], true, [u][0 + 0]);
  }

  /** Which single units the smallest trees match. */
  lemma Units(t: Text, i: nat, j: nat, low: nat, high: nat)
    requires i <= j <= |t|
    ensures Matches(Regexp(OpCharClass([low, high]), []), t, i, j) <==> j == i + 1 && low <= t[i] <= high
    ensures Matches(Regexp(OpAnyChar, []), t, i, j) <==> j == i + 1
    ensures Matches(Regexp(OpAnyCharNotNL, []), t, i, j) <==> j == i + 1 && t[i] != 10
  {
    if j == i + 1 && low <= t[i] <= high {
      assert [low, high][2 * 0] <= t[i] <= [low, high][2 * 0 + 1];
      assert InRanges([low, high], t[i]);
    }
  }

  /** Which positions they match. */
  lemma Positions(t: Text, i: nat, j: nat)
    requires i <= j <= |t|
    ensures Matches(Regexp(OpBeginText, []), t, i, j) <==> i == j == 0
    ensures Matches(Regexp(OpEndText, []), t, i, j) <==> i == j == |t|
    ensures Matches(Regexp(OpBeginLine, []), t, i, j) <==> i == j && (i == 0 || t[i - 1] == 10)
    ensures Matches(Regexp(OpEndLine, []), t, i, j) <==> i == j && (i == |t| || t[i] == 10)
    ensures Matches(Regexp(OpEmptyMatch, []), t, i, j) <==> i == j
    ensures !Matches(Regexp(OpNoMatch, []), t, i, j)
    ensures Matches(Regexp(OpNoWordBoundary, []), t, i, j) <==> i == j && !Matches(Regexp(OpWordBoundary, []), t, i, j)
  {}

  /** A word boundary is between a letter, digit or underscore and anything else, or an end of the text. */
  lemma WordBoundary(a: nat, b: nat)
    ensures Matches(Regexp(OpWordBoundary, []), [a, b], 1, 1) <==> IsWord(a) != IsWord(b)
    ensures Matches(Regexp(OpWordBoundary, []), [a], 0, 0) <==> IsWord(a)
  {}

  predicate IsWord(u: nat) {
    u < 128 && ('a' <= u as char <= 'z' || 'A' <= u as char <= 'Z' || '0' <= u as char <= '9' || u as char == '_')
  }

  // ---------------------------------------------------------------- which trees have a cover

  /** The length of the shortest literals. */
  predicate Shortest(c: seq<Text>, n: nat) {
    (exists h :: h in c && |h| == n) && forall h :: h in c ==> |h| >= n
  }

  lemma {:induction false} MinIsShortest(c: seq<Text>, min: nat)
    requires (forall h :: h in c ==> h != []) && (c != [] || min > 0)
    ensures var n := MinHintLength(c, min);
            && n > 0 && (forall h :: h in c ==> |h| >= n) && (min > 0 ==> n <= min)
            && (n == min || exists h :: h in c && |h| == n)
  {
    if c == [] {
    } else {
      assert c == [c[0]] + c[1..] && c[0] in c;
      assert forall h :: h in c[1..] ==> h in c;
      MinIsShortest(c[1..], if min == 0 || |c[0]| < min then |c[0]| else min);
    }
  }

  lemma MinShortest(c: seq<Text>)
    requires c != [] && forall h :: h in c ==> h != []
    ensures Shortest(c, MinHintLength(c, 0))
  {
    MinIsShortest(c, 0);
  }

  /** The first has longer shortest literals, or as long and no more of them. */
  predicate AsGood(c: seq<Text>, d: seq<Text>) {
    MinHintLength(c, 0) > MinHintLength(d, 0) || (MinHintLength(c, 0) == MinHintLength(d, 0) && |c| <= |d|)
  }

  predicate Usables(c: seq<Text>) {
    c != [] && forall h :: h in c ==> h != []
  }

  /** The cover chosen among the parts is that of a part, or the one chosen before, and none has longer shortest
      literals. */
  lemma {:induction false} BestIsBest(es: seq<Regexp>, best: seq<Text>)
    requires best == [] || Usables(best)
    ensures var r := BestCover(es, best);
            && (r == best || exists k :: 0 <= k < |es| && LiteralCover(es[k]) == Some(r))
            && (best != [] ==> r != [] && AsGood(r, best))
            && (forall k :: 0 <= k < |es| && LiteralCover(es[k]).Some? ==> r != [] && AsGood(r, LiteralCover(es[k]).value))
  {
    if es == [] {
    } else {
      var candidate := LiteralCover(es[0]);
      if candidate.Some? {
        CoverUsable(es[0]);
      }
      var next := if candidate.Some? && BetterCover(candidate.value, best) then candidate.value else best;
      BestIsBest(es[1..], next);
      var r := BestCover(es[1..], next);
      forall k | 0 <= k < |es| && LiteralCover(es[k]).Some?
        ensures r != [] && AsGood(r, LiteralCover(es[k]).value)
      {
        assert k > 0 ==> es[k] == es[1..][k - 1];
      }
      if r != next {
        var k :| 0 <= k < |es[1..]| && LiteralCover(es[1..][k]) == Some(r);
        assert es[k + 1] == es[1..][k];
      }
    }
  }

  /** A concatenation has a cover exactly when a part has one: that of a part, with the longest shortest literals and,
      among those, the fewest. */
  lemma ConcatCover(es: seq<Regexp>)
    ensures LiteralCover(Concat(es)).Some? <==> exists k :: 0 <= k < |es| && LiteralCover(es[k]).Some?
    ensures LiteralCover(Concat(es)).Some? ==>
              var c := LiteralCover(Concat(es));
              && (exists k :: 0 <= k < |es| && LiteralCover(es[k]) == c)
              && (forall k, n, m | 0 <= k < |es| && LiteralCover(es[k]).Some? && Shortest(LiteralCover(es[k]).value, n)
                                   && Shortest(c.value, m)
                    :: m > n || (m == n && |c.value| <= |LiteralCover(es[k]).value|))
  {
    BestIsBest(es, []);
    var c := LiteralCover(Concat(es));
    if c.Some? {
      CoverUsable(Concat(es));
      MinShortest(c.value);
      forall k, n, m | 0 <= k < |es| && LiteralCover(es[k]).Some? && Shortest(LiteralCover(es[k]).value, n)
                       && Shortest(c.value, m)
        ensures m > n || (m == n && |c.value| <= |LiteralCover(es[k]).value|)
      {
        CoverUsable(es[k]);
        MinShortest(LiteralCover(es[k]).value);
      }
    }
  }

  lemma {:induction false} MergedIs(es: seq<Regexp>, merged: seq<Text>)
    ensures MergedCover(es, merged).Some? <==> forall k :: 0 <= k < |es| ==> LiteralCover(es[k]).Some?
    ensures MergedCover(es, merged).Some? ==>
              forall h :: h in MergedCover(es, merged).value <==>
                          h in merged || exists k :: 0 <= k < |es| && h in LiteralCover(es[k]).value
  {
    if es == [] {
    } else {
      assert forall k :: 1 <= k < |es| ==> es[k] == es[1..][k - 1];
      if LiteralCover(es[0]).Some? {
        MergedIs(es[1..], AddNew(merged, LiteralCover(es[0]).value));
        assert forall k :: 0 <= k < |es[1..]| ==> es[1..][k] == es[k + 1];
      }
    }
  }

  /** An alternation has a cover exactly when it has alternatives and all of them have: the literals of all. */
  lemma AlternateCover(es: seq<Regexp>)
    ensures LiteralCover(Alternate(es)).Some? <==> es != [] && forall k :: 0 <= k < |es| ==> LiteralCover(es[k]).Some?
    ensures LiteralCover(Alternate(es)).Some? ==>
              forall h :: h in LiteralCover(Alternate(es)).value <==>
                          exists k :: 0 <= k < |es| && h in LiteralCover(es[k]).value
  {
    MergedIs(es, []);
    var merged := MergedCover(es, []);
    if es != [] && merged.Some? {
      CoverUsable(es[0]);
      assert LiteralCover(es[0]).value[0] in merged.value;
    }
  }

  /** What must occur at least once has the cover of its part; what need not has none. A literal covers itself. */
  lemma PartCover(e: Regexp, min: int, max: int, runes: seq<nat>, foldCase: bool)
    ensures LiteralCover(Regexp(OpCapture, [e])) == LiteralCover(Plus(e)) == LiteralCover(e)
    ensures LiteralCover(Repeat(e, min, max)) == if min >= 1 then LiteralCover(e) else None
    ensures LiteralCover(Star(e)) == LiteralCover(Quest(e)) == None
    ensures LiteralCover(Regexp(OpLiteral(runes, foldCase), []))
         == if runes != [] && IsAscii(runes) then Some([Lower(runes)]) else None
  {}

  // ---------------------------------------------------------------- the other analyses

  lemma {:induction false} SomePart(es: seq<Regexp>)
    ensures AnyCanMatchNewline(es) <==> exists k :: 0 <= k < |es| && CanMatchNewline(es[k])
    ensures AnyHasTextAnchor(es) <==> exists k :: 0 <= k < |es| && HasTextAnchor(es[k])
    ensures AnyFoldRisk(es) <==> exists k :: 0 <= k < |es| && FoldRisk(es[k])
  {
    if es == [] {
    } else {
      SomePart(es[1..]);
      assert forall k :: 0 <= k < |es[1..]| ==> es[1..][k] == es[k + 1];
      assert forall k :: 1 <= k < |es| ==> es[k] == es[1..][k - 1];
    }
  }

  /** A tree can match a newline, is anchored to the text, or is at risk from folding exactly when an operator in it is. */
  lemma Analyses(e: Regexp)
    ensures CanMatchNewline(e) <==>
              || e.op.OpAnyChar? || (e.op.OpLiteral? && 10 in e.op.runes)
              || (e.op.OpCharClass? && exists i :: 0 <= i < |e.op.ranges| / 2 && e.op.ranges[2 * i] <= 10 <= e.op.ranges[2 * i + 1])
              || exists k :: 0 <= k < |e.sub| && CanMatchNewline(e.sub[k])
    ensures HasTextAnchor(e) <==>
              e.op.OpBeginText? || e.op.OpEndText? || exists k :: 0 <= k < |e.sub| && HasTextAnchor(e.sub[k])
    ensures FoldRisk(e) <==>
              || (e.op.OpLiteral? && e.op.foldCase && exists k :: 0 <= k < |e.op.runes| && OfKOrS(e.op.runes[k]))
              || exists k :: 0 <= k < |e.sub| && FoldRisk(e.sub[k])
  {
    SomePart(e.sub);
    if e.op.OpLiteral? {
      assert forall k :: 0 <= k < |e.op.runes| ==> (FoldsToAscii(AlternateFold(e.op.runes[k])) <==> OfKOrS(e.op.runes[k]));
    }
  }

  /** k or s, in any spelling. */
  predicate OfKOrS(r: nat) {
    r in {75, 107, 0x212A, 83, 115, 0x17F}
  }
}
