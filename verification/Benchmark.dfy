/** The benchmark's measures: the counters and the confusion matrix over a data set, the measures of each
    category, and the confidence interval. Quotients are exact reals. */
module Benchmark {
  import opened Options

  type Label = string

  const UNKNOWN: Label := "UNKNOWN"

  /** A case and what the analysis said. For attribution, provider and error family: whether the answer was
      right, if the case asks for one. */
  datatype Case = Case(expected: Label, predicted: Label, attribution: Option<bool>, provider: Option<bool>,
                       family: Option<bool>)

  type Matrix = map<Label, map<Label, nat>>

  function Cell(m: Matrix, e: Label, p: Label): nat {
    if e in m && p in m[e] then m[e][p] else 0
  }

  // ---------------------------------------------------------------- counting cases

  function Count(cases: seq<Case>, p: Case -> bool): nat {
    if cases == [] then 0
    else Count(cases[..|cases| - 1], p) + if p(cases[|cases| - 1]) then 1 else 0
  }

  /** What a category's measure counts. */
  datatype Kind = Support | TruePositive | FalsePositive | FalseNegative

  predicate Falls(k: Kind, l: Label, expected: Label, predicted: Label) {
    match k
    case Support => expected == l
    case TruePositive => expected == l && predicted == l
    case FalsePositive => expected != l && predicted == l
    case FalseNegative => expected == l && predicted != l
  }

  function Of(k: Kind, l: Label): Case -> bool {
    (c: Case) => Falls(k, l, c.expected, c.predicted)
  }

  function Correct(): Case -> bool {
    (c: Case) => c.predicted == c.expected
  }

  function Covered(): Case -> bool {
    (c: Case) => c.predicted != UNKNOWN
  }

  function CoveredCorrect(): Case -> bool {
    (c: Case) => c.predicted != UNKNOWN && c.predicted == c.expected
  }

  function Uncovered(): Case -> bool {
    (c: Case) => c.predicted == UNKNOWN
  }

  datatype Part = Attribution | Provider | Family

  function Answer(c: Case, part: Part): Option<bool> {
    match part
    case Attribution => c.attribution
    case Provider => c.provider
    case Family => c.family
  }

  function Asks(part: Part): Case -> bool {
    (c: Case) => Answer(c, part).Some?
  }

  function Answers(part: Part): Case -> bool {
    (c: Case) => Answer(c, part) == Some(true)
  }

  /** Some answer was wrong. */
  predicate Wrong(c: Case) {
    c.predicted != c.expected || c.attribution == Some(false) || c.provider == Some(false) || c.family == Some(false)
  }

  /** The cases whose pair of labels is one of these. */
  function CountIn(cases: seq<Case>, pairs: set<(Label, Label)>): nat {
    if cases == [] then 0
    else
      var c := cases[|cases| - 1];
      CountIn(cases[..|cases| - 1], pairs) + if (c.expected, c.predicted) in pairs then 1 else 0
  }

  lemma {:induction false} CountInAdds(cases: seq<Case>, a: set<(Label, Label)>, b: set<(Label, Label)>)
    requires a !! b
    ensures CountIn(cases, a + b) == CountIn(cases, a) + CountIn(cases, b)
  {
    if cases == [] {
    } else {
      CountInAdds(cases[..|cases| - 1], a, b);
    }
  }

  lemma {:induction false} CountInIs(cases: seq<Case>, pairs: set<(Label, Label)>, p: Case -> bool)
    requires forall c :: c in cases ==> (p(c) <==> (c.expected, c.predicted) in pairs)
    ensures CountIn(cases, pairs) == Count(cases, p)
  {
    if cases == [] {
    } else {
      CountInIs(cases[..|cases| - 1], pairs, p);
    }
  }

  lemma {:induction false} CountInNone(cases: seq<Case>)
    ensures CountIn(cases, {}) == 0
  {
    if cases == [] {
    } else {
      CountInNone(cases[..|cases| - 1]);
    }
  }

  // ---------------------------------------------------------------- the counters

  /** How many cases ask for an answer, and for how many it was right. */
  datatype Quality = Quality(asked: nat, right: nat)

  datatype Report = Report(
    cases: nat, confusion: Matrix, labels: set<Label>, correct: nat, unknown: nat, covered: nat, coveredCorrect: nat,
    attribution: Quality, provider: Quality, family: Quality, misclassified: seq<Case>)

  ghost predicate Tallied(m: Matrix, cases: seq<Case>) {
    forall e, p :: Cell(m, e, p) == CountIn(cases, {(e, p)})
  }

  function LabelsOf(cases: seq<Case>): set<Label> {
    if cases == [] then {}
    else LabelsOf(cases[..|cases| - 1]) + {cases[|cases| - 1].expected, cases[|cases| - 1].predicted}
  }

  function WrongOnes(cases: seq<Case>): seq<Case> {
    if cases == [] then []
    else WrongOnes(cases[..|cases| - 1]) + if Wrong(cases[|cases| - 1]) then [cases[|cases| - 1]] else []
  }

  ghost predicate Answered(q: Quality, cases: seq<Case>, part: Part) {
    q.asked == Count(cases, Asks(part)) && q.right == Count(cases, Answers(part))
  }

  /** Every counter counts what it is named for. */
  ghost predicate Counted(r: Report, cases: seq<Case>) {
    && r.cases == |cases| && r.labels == LabelsOf(cases)
    && r.correct == Count(cases, Correct())
    && r.unknown == Count(cases, Uncovered())
    && r.covered == Count(cases, Covered())
    && r.coveredCorrect == Count(cases, CoveredCorrect())
    && Answered(r.attribution, cases, Attribution) && Answered(r.provider, cases, Provider)
    && Answered(r.family, cases, Family)
    && r.misclassified == WrongOnes(cases)
  }

  /** Count one case in the matrix. */
  method Tally(m: Matrix, ghost cases: seq<Case>, ghost i: nat, c: Case) returns (r: Matrix)
    requires i < |cases| && c == cases[i] && Tallied(m, cases[..i])
    ensures Tallied(r, cases[..i + 1])
  {
    r := m;
    if c.expected !in r {
      r := r[c.expected := map[]];
    }
    var row := r[c.expected];
    row := row[c.predicted := (if c.predicted in row then row[c.predicted] else 0) + 1];
    r := r[c.expected := row];
    assert cases[..i + 1][..i] == cases[..i];
    forall e, p ensures Cell(r, e, p) == CountIn(cases[..i + 1], {(e, p)}) {
      assert Cell(m, e, p) == CountIn(cases[..i], {(e, p)});
    }
  }

  method CountAnswer(q: Quality, ghost cases: seq<Case>, ghost i: nat, ghost part: Part, answer: Option<bool>)
    returns (r: Quality)
    requires i < |cases| && answer == Answer(cases[i], part) && Answered(q, cases[..i], part)
    ensures Answered(r, cases[..i + 1], part)
  {
    r := q;
    assert cases[..i + 1][..i] == cases[..i];
    if answer.Some? {
      r := r.(asked := r.asked + 1);
      if answer.value {
        r := r.(right := r.right + 1);
      }
    }
  }

  /** Count one case in the other counters. */
  method CountCase(r: Report, ghost cases: seq<Case>, ghost i: nat, c: Case) returns (t: Report)
    requires i < |cases| && c == cases[i] && Counted(r, cases[..i])
    ensures Counted(t, cases[..i + 1]) && t.confusion == r.confusion
  {
    var attribution := CountAnswer(r.attribution, cases, i, Attribution, c.attribution);
    var provider := CountAnswer(r.provider, cases, i, Provider, c.provider);
    var family := CountAnswer(r.family, cases, i, Family, c.family);
    assert cases[..i + 1][..i] == cases[..i];
    t := r.(cases := r.cases + 1, labels := r.labels + {c.expected, c.predicted}, attribution := attribution,
            provider := provider, family := family);
    var right := c.predicted == c.expected;
    if right {
      t := t.(correct := t.correct + 1);
    }
    if c.predicted == UNKNOWN {
      t := t.(unknown := t.unknown + 1);
    } else {
      t := t.(covered := t.covered + 1);
      if right {
        t := t.(coveredCorrect := t.coveredCorrect + 1);
      }
    }
    if !right || c.attribution == Some(false) || c.provider == Some(false) || c.family == Some(false) {
      t := t.(misclassified := t.misclassified + [c]);
    }
  }

  method Evaluate(cases: seq<Case>) returns (r: Report)
    ensures Counted(r, cases) && Tallied(r.confusion, cases)
  {
    r := Report(0, map[], {}, 0, 0, 0, 0, Quality(0, 0), Quality(0, 0), Quality(0, 0), []);
    for i := 0 to |cases|
      invariant Counted(r, cases[..i]) && Tallied(r.confusion, cases[..i])
    {
      var confusion := Tally(r.confusion, cases, i, cases[i]);
      r := CountCase(r, cases, i, cases[i]);
      r := r.(confusion := confusion);
    }
    assert cases[..|cases|] == cases;
  }

  // ---------------------------------------------------------------- the measures of a category

  datatype Metric = Metric(category: Label, support: nat, truePos: nat, falsePos: nat, falseNeg: nat,
                           precision: real, recall: real, f1: real)
  {
    function Counter(k: Kind): nat {
      match k
      case Support => support
      case TruePositive => truePos
      case FalsePositive => falsePos
      case FalseNegative => falseNeg
    }
  }

  function Ratio(a: nat, b: nat): real {
    if b == 0 then 0.0 else a as real / b as real
  }

  ghost predicate Measures(m: Metric, cases: seq<Case>) {
    && (forall k :: m.Counter(k) == Count(cases, Of(k, m.category)))
    && m.precision == Ratio(m.truePos, m.truePos + m.falsePos)
    && m.recall == Ratio(m.truePos, m.truePos + m.falseNeg)
    && m.f1 == F1(m.precision, m.recall)
  }

  function F1(p: real, r: real): real {
    if p + r > 0.0 then 2.0 * p * r / (p + r) else 0.0
  }

  function Selected(pairs: set<(Label, Label)>, k: Kind, l: Label): set<(Label, Label)> {
    set x | x in pairs && Falls(k, l, x.0, x.1)
  }

  /** The counters so far: those of the pairs of labels that were looked at. */
  ghost predicate Looked(m: Metric, cases: seq<Case>, pairs: set<(Label, Label)>) {
    forall k :: m.Counter(k) == CountIn(cases, Selected(pairs, k, m.category))
  }

  method AddCell(m: Metric, ghost cases: seq<Case>, ghost pairs: set<(Label, Label)>, e: Label, p: Label, n: nat)
    returns (r: Metric)
    requires Looked(m, cases, pairs) && (e, p) !in pairs && n == CountIn(cases, {(e, p)})
    ensures Looked(r, cases, pairs + {(e, p)}) && r.category == m.category
  {
    r := m;
    if e == m.category {
      r := r.(support := r.support + n);
    }
    if e == m.category && p == m.category {
      r := r.(truePos := r.truePos + n);
    } else if e != m.category && p == m.category {
      r := r.(falsePos := r.falsePos + n);
    } else if e == m.category && p != m.category {
      r := r.(falseNeg := r.falseNeg + n);
    }
    forall k ensures r.Counter(k) == CountIn(cases, Selected(pairs + {(e, p)}, k, m.category)) {
      var before, after := Selected(pairs, k, m.category), Selected(pairs + {(e, p)}, k, m.category);
      if Falls(k, m.category, e, p) {
        assert after == before + {(e, p)};
        CountInAdds(cases, before, {(e, p)});
      } else {
        assert after == before;
      }
    }
  }

  function RowPairs(row: map<Label, nat>, e: Label, columns: set<Label>): set<(Label, Label)> {
    set p | p in row && p !in columns :: (e, p)
  }

  method AddRow(m: Metric, ghost cases: seq<Case>, ghost pairs: set<(Label, Label)>, e: Label, row: map<Label, nat>)
    returns (r: Metric)
    requires Looked(m, cases, pairs) && forall p :: (e, p) !in pairs
    requires forall p :: p in row ==> row[p] == CountIn(cases, {(e, p)})
    ensures Looked(r, cases, pairs + RowPairs(row, e, {})) && r.category == m.category
  {
    r := m;
    var columns := row.Keys;
    assert pairs + RowPairs(row, e, columns) == pairs;
    while columns != {}
      invariant columns <= row.Keys
      invariant Looked(r, cases, pairs + RowPairs(row, e, columns)) && r.category == m.category
      decreases columns
    {
      var p :| p in columns;
      ghost var passed := pairs + RowPairs(row, e, columns);
      r := AddCell(r, cases, passed, e, p, row[p]);
      columns := columns - {p};
      assert pairs + RowPairs(row, e, columns) == passed + {(e, p)};
    }
  }

  function MatrixPairs(m: Matrix, rows: set<Label>): set<(Label, Label)> {
    set e, p | e in m && e !in rows && p in m[e] :: (e, p)
  }

  method MeasureCategory(l: Label, m: Matrix, ghost cases: seq<Case>) returns (r: Metric)
    requires Tallied(m, cases)
    ensures Measures(r, cases) && r.category == l
  {
    r := Metric(l, 0, 0, 0, 0, 0.0, 0.0, 0.0);
    var rows := m.Keys;
    assert MatrixPairs(m, rows) == {};
    CountInNone(cases);
    assert forall k :: Selected({}, k, l) == {};
    while rows != {}
      invariant rows <= m.Keys
      invariant Looked(r, cases, MatrixPairs(m, rows)) && r.category == l
      decreases rows
    {
      var e :| e in rows;
      forall p | p in m[e] ensures m[e][p] == CountIn(cases, {(e, p)}) {
        assert Cell(m, e, p) == CountIn(cases, {(e, p)});
      }
      r := AddRow(r, cases, MatrixPairs(m, rows), e, m[e]);
      assert MatrixPairs(m, rows - {e}) == MatrixPairs(m, rows) + RowPairs(m[e], e, {});
      rows := rows - {e};
    }
    AllLooked(r, m, cases);
    var precision, recall := Ratio(r.truePos, r.truePos + r.falsePos), Ratio(r.truePos, r.truePos + r.falseNeg);
    r := r.(precision := precision, recall := recall,
            f1 := if precision + recall > 0.0 then 2.0 * precision * recall / (precision + recall) else 0.0);
  }

  /** When the whole matrix was looked at, the counters count the cases. */
  lemma AllLooked(r: Metric, m: Matrix, cases: seq<Case>)
    requires Tallied(m, cases) && Looked(r, cases, MatrixPairs(m, {}))
    ensures forall k :: r.Counter(k) == Count(cases, Of(k, r.category))
  {
    forall k ensures r.Counter(k) == Count(cases, Of(k, r.category)) {
      forall c | c in cases ensures (c.expected, c.predicted) in MatrixPairs(m, {}) {
        Occurs(cases, c);
        assert Cell(m, c.expected, c.predicted) > 0;
      }
      CountInIs(cases, Selected(MatrixPairs(m, {}), k, r.category), Of(k, r.category));
    }
  }

  lemma {:induction false} Occurs(cases: seq<Case>, c: Case)
    requires c in cases
    ensures CountIn(cases, {(c.expected, c.predicted)}) > 0
  {
    if c == cases[|cases| - 1] {
    } else {
      assert c in cases[..|cases| - 1];
      Occurs(cases[..|cases| - 1], c);
    }
  }

  /** The categories are listed once each, without UNKNOWN. */
  ghost predicate Lists(ordered: seq<Label>, labels: set<Label>) {
    && (forall l :: l in ordered <==> l in labels && l != UNKNOWN)
    && (forall i, k :: 0 <= i < k < |ordered| ==> ordered[i] != ordered[k])
  }

  method CategoryMetrics(labels: set<Label>, m: Matrix, ghost cases: seq<Case>) returns (r: seq<Metric>)
    requires Tallied(m, cases)
    ensures forall i :: 0 <= i < |r| ==> Measures(r[i], cases)
    ensures Lists(seq(|r|, i requires 0 <= i < |r| => r[i].category), labels)
  {
    var ordered := [];
    var remaining := labels - {UNKNOWN};
    while remaining != {}
      invariant remaining <= labels - {UNKNOWN}
      invariant Lists(ordered, labels - remaining)
      decreases remaining
    {
      var l :| l in remaining;
      ordered := ordered + [l];
      remaining := remaining - {l};
    }
    r := [];
    for i := 0 to |ordered|
      invariant |r| == i
      invariant forall k :: 0 <= k < i ==> Measures(r[k], cases) && r[k].category == ordered[k]
    {
      var measured := MeasureCategory(ordered[i], m, cases);
      r := r + [measured];
    }
    assert seq(|r|, i requires 0 <= i < |r| => r[i].category) == ordered;
    assert labels - {} == labels;
  }

  // ---------------------------------------------------------------- conservation

  lemma {:induction false} CountSame(cases: seq<Case>, p: Case -> bool, q: Case -> bool)
    requires forall c :: c in cases ==> (p(c) <==> q(c))
    ensures Count(cases, p) == Count(cases, q)
  {
    if cases == [] {
    } else {
      CountSame(cases[..|cases| - 1], p, q);
    }
  }

  lemma {:induction false} CountAdds(cases: seq<Case>, p: Case -> bool, q: Case -> bool, both: Case -> bool)
    requires forall c :: c in cases ==> !(p(c) && q(c)) && (both(c) <==> p(c) || q(c))
    ensures Count(cases, both) == Count(cases, p) + Count(cases, q)
  {
    if cases == [] {
    } else {
      CountAdds(cases[..|cases| - 1], p, q, both);
    }
  }

  lemma {:induction false} CountAll(cases: seq<Case>, p: Case -> bool)
    requires forall c :: c in cases ==> p(c)
    ensures Count(cases, p) == |cases|
  {
    if cases == [] {
    } else {
      CountAll(cases[..|cases| - 1], p);
    }
  }

  lemma {:induction false} LabelsHave(cases: seq<Case>, c: Case)
    requires c in cases
    ensures c.expected in LabelsOf(cases) && c.predicted in LabelsOf(cases)
  {
    if c == cases[|cases| - 1] {
    } else {
      assert c in cases[..|cases| - 1];
      LabelsHave(cases[..|cases| - 1], c);
    }
  }

  /** The case counts for one of the labels. */
  function OfAny(k: Kind, ls: seq<Label>): Case -> bool {
    (c: Case) => match k
      case Support => c.expected in ls
      case TruePositive => c.expected in ls && c.predicted == c.expected
      case FalsePositive => c.predicted in ls && c.predicted != c.expected
      case FalseNegative => c.expected in ls && c.predicted != c.expected
  }

  function Categories(ms: seq<Metric>): seq<Label> {
    seq(|ms|, i requires 0 <= i < |ms| => ms[i].category)
  }

  function SumOf(ms: seq<Metric>, k: Kind): nat {
    if ms == [] then 0 else SumOf(ms[..|ms| - 1], k) + ms[|ms| - 1].Counter(k)
  }

  ghost predicate AllMeasure(ms: seq<Metric>, cases: seq<Case>) {
    forall i :: 0 <= i < |ms| ==> Measures(ms[i], cases)
  }

  ghost predicate DistinctLabels(ls: seq<Label>) {
    forall i, k :: 0 <= i < k < |ls| ==> ls[i] != ls[k]
  }

  lemma OfAnyGrows(cases: seq<Case>, k: Kind, ls: seq<Label>, l: Label)
    requires l !in ls
    ensures Count(cases, OfAny(k, ls + [l])) == Count(cases, OfAny(k, ls)) + Count(cases, Of(k, l))
  {
    CountAdds(cases, OfAny(k, ls), Of(k, l), OfAny(k, ls + [l]));
  }

  /** Over distinct categories a counter adds up to the number of cases that count for one of them. */
  lemma {:induction false} SumCounts(ms: seq<Metric>, cases: seq<Case>, k: Kind)
    requires forall i :: 0 <= i < |ms| ==> ms[i].Counter(k) == Count(cases, Of(k, ms[i].category))
    requires DistinctLabels(Categories(ms))
    ensures SumOf(ms, k) == Count(cases, OfAny(k, Categories(ms)))
  {
    if ms == [] {
      NoneCount(cases, OfAny(k, Categories(ms)));
    } else {
      var front, l := ms[..|ms| - 1], ms[|ms| - 1].category;
      assert Categories(ms) == Categories(front) + [l];
      assert forall i :: 0 <= i < |front| ==> Categories(front)[i] == Categories(ms)[i];
      assert l == Categories(ms)[|front|];
      SumCounts(front, cases, k);
      OfAnyGrows(cases, k, Categories(front), l);
    }
  }

  lemma {:induction false} NoneCount(cases: seq<Case>, p: Case -> bool)
    requires forall c :: c in cases ==> !p(c)
    ensures Count(cases, p) == 0
  {
    if cases == [] {
    } else {
      NoneCount(cases[..|cases| - 1], p);
    }
  }

  /** The cases are the covered and the uncovered ones, and each category's are its hits and its misses. */
  lemma CountersAgree(r: Report, m: Metric, cases: seq<Case>)
    requires Counted(r, cases) && Measures(m, cases)
    ensures r.covered + r.unknown == r.cases
    ensures m.support == m.truePos + m.falseNeg
    ensures r.coveredCorrect <= r.correct <= r.cases && r.coveredCorrect <= r.covered
  {
    var every := (c: Case) => true;
    CountAdds(cases, Covered(), Uncovered(), every);
    CountAll(cases, every);
    var l := m.category;
    assert m.Counter(Support) == Count(cases, Of(Support, l));
    assert m.Counter(TruePositive) == Count(cases, Of(TruePositive, l));
    assert m.Counter(FalseNegative) == Count(cases, Of(FalseNegative, l));
    CountAdds(cases, Of(TruePositive, l), Of(FalseNegative, l), Of(Support, l));
    CountWithin(cases, CoveredCorrect(), Correct());
    CountWithin(cases, CoveredCorrect(), Covered());
    CountWithin(cases, Correct(), every);
  }

  lemma {:induction false} CountWithin(cases: seq<Case>, p: Case -> bool, q: Case -> bool)
    requires forall c :: c in cases && p(c) ==> q(c)
    ensures Count(cases, p) <= Count(cases, q)
  {
    if cases == [] {
    } else {
      CountWithin(cases[..|cases| - 1], p, q);
    }
  }

  lemma CategoriesCover(ms: seq<Metric>, cases: seq<Case>, c: Case)
    requires Lists(Categories(ms), LabelsOf(cases)) && c in cases
    ensures c.expected in Categories(ms) <==> c.expected != UNKNOWN
    ensures c.predicted in Categories(ms) <==> c.predicted != UNKNOWN
  {
    LabelsHave(cases, c);
  }

  /** The sum of the cells at these pairs. */
  ghost function CellSum(m: Matrix, pairs: set<(Label, Label)>): nat {
    if pairs == {} then 0 else var x :| x in pairs; Cell(m, x.0, x.1) + CellSum(m, pairs - {x})
  }

  lemma {:induction false} CellSumCounts(m: Matrix, cases: seq<Case>, pairs: set<(Label, Label)>)
    requires Tallied(m, cases)
    ensures CellSum(m, pairs) == CountIn(cases, pairs)
    decreases |pairs|
  {
    if pairs == {} {
      CountInNone(cases);
    } else {
      var x :| x in pairs && CellSum(m, pairs) == Cell(m, x.0, x.1) + CellSum(m, pairs - {x});
      CellSumCounts(m, cases, pairs - {x});
      assert Cell(m, x.0, x.1) == CountIn(cases, {(x.0, x.1)});
      assert (x.0, x.1) == x && pairs - {x} + {x} == pairs;
      CountInAdds(cases, pairs - {x}, {x});
    }
  }

  /** The sum of a row of the matrix. */
  ghost function RowSum(m: Matrix, e: Label): nat {
    if e in m then CellSum(m, RowPairs(m[e], e, {})) else 0
  }

  lemma RowSumCounts(m: Matrix, cases: seq<Case>, e: Label)
    requires Tallied(m, cases)
    ensures RowSum(m, e) == Count(cases, Of(Support, e))
  {
    var pairs := if e in m then RowPairs(m[e], e, {}) else {};
    forall c | c in cases ensures c.expected == e <==> (c.expected, c.predicted) in pairs {
      Occurs(cases, c);
      assert Cell(m, c.expected, c.predicted) > 0;
    }
    CellSumCounts(m, cases, pairs);
    CountInIs(cases, pairs, Of(Support, e));
  }

  /** Over all categories the measures account for every case: the true positives are the correct cases that are
      not UNKNOWN, the false positives the covered incorrect ones, and the supports all but UNKNOWN's row. */
  lemma Conservation(r: Report, ms: seq<Metric>, cases: seq<Case>)
    requires Counted(r, cases) && Tallied(r.confusion, cases)
    requires AllMeasure(ms, cases) && Lists(Categories(ms), LabelsOf(cases))
    ensures SumOf(ms, TruePositive) == r.coveredCorrect
    ensures SumOf(ms, TruePositive) + Cell(r.confusion, UNKNOWN, UNKNOWN) == r.correct
    ensures SumOf(ms, FalsePositive) == r.covered - r.coveredCorrect
    ensures SumOf(ms, Support) + RowSum(r.confusion, UNKNOWN) == r.cases
    ensures SumOf(ms, FalseNegative) == SumOf(ms, Support) - r.coveredCorrect
  {
    var ls := Categories(ms);
    forall k ensures SumOf(ms, k) == Count(cases, OfAny(k, ls)) {
      SumCounts(ms, cases, k);
    }
    forall c | c in cases ensures (c.expected in ls <==> c.expected != UNKNOWN)
                               && (c.predicted in ls <==> c.predicted != UNKNOWN) {
      CategoriesCover(ms, cases, c);
    }
    CountSame(cases, OfAny(TruePositive, ls), CoveredCorrect());
    UnknownCell(r, cases);
    RowSumCounts(r.confusion, cases, UNKNOWN);
    CountAdds(cases, CoveredCorrect(), Of(TruePositive, UNKNOWN), Correct());
    CountAdds(cases, OfAny(FalsePositive, ls), CoveredCorrect(), Covered());
    var every := (c: Case) => true;
    CountAdds(cases, OfAny(Support, ls), Of(Support, UNKNOWN), every);
    CountAll(cases, every);
    CountAdds(cases, OfAny(FalseNegative, ls), CoveredCorrect(), OfAny(Support, ls));
  }

  lemma UnknownCell(r: Report, cases: seq<Case>)
    requires Tallied(r.confusion, cases)
    ensures Cell(r.confusion, UNKNOWN, UNKNOWN) == Count(cases, Of(TruePositive, UNKNOWN))
  {
    CountInIs(cases, {(UNKNOWN, UNKNOWN)}, Of(TruePositive, UNKNOWN));
  }

  /** The whole matrix sums to the number of cases. */
  lemma MatrixSums(m: Matrix, cases: seq<Case>)
    requires Tallied(m, cases)
    ensures CellSum(m, MatrixPairs(m, {})) == |cases|
  {
    var every := (c: Case) => true;
    forall c | c in cases ensures (c.expected, c.predicted) in MatrixPairs(m, {}) {
      Occurs(cases, c);
      assert Cell(m, c.expected, c.predicted) > 0;
    }
    CellSumCounts(m, cases, MatrixPairs(m, {}));
    CountInIs(cases, MatrixPairs(m, {}), every);
    CountAll(cases, every);
  }

  // ---------------------------------------------------------------- precision, recall, F1

  lemma QuotientBounds(a: real, b: real, c: real)
    requires c > 0.0
    ensures a <= b * c <==> a / c <= b
    ensures b * c <= a <==> b <= a / c
  {
    var q := a / c;
    assert q * c == a;
    if q <= b {
      assert q * c <= b * c;
    }
    if b <= q {
      assert b * c <= q * c;
    }
    if q > b {
      assert (q - b) * c > 0.0;
    }
    if q < b {
      assert (b - q) * c > 0.0;
    }
  }

  lemma RatioBounds(a: nat, b: nat)
    requires a <= b
    ensures 0.0 <= Ratio(a, b) <= 1.0
  {
    if b > 0 {
      QuotientBounds(a as real, 1.0, b as real);
      QuotientBounds(a as real, 0.0, b as real);
    }
  }

  lemma Squares(low: real, high: real)
    requires 0.0 <= low <= high
    ensures low * low <= low * high <= high * high
  {}

  /** F1 lies between precision and recall, and is at most their mean. */
  lemma F1Between(p: real, r: real)
    requires 0.0 <= p <= r
    ensures p <= F1(p, r) <= r && p <= F1(r, p) <= r
    ensures F1(p, r) <= (p + r) / 2.0
  {
    if p + r > 0.0 {
      var twice, sum := 2.0 * p * r, p + r;
      Squares(p, r);
      assert p * sum == p * p + p * r && r * sum == p * r + r * r && twice == p * r + p * r;
      QuotientBounds(twice, p, sum);
      QuotientBounds(twice, r, sum);
      MeanSquare(p, r);
      QuotientBounds(twice, sum / 2.0, sum);
    }
  }

  lemma MeanSquare(p: real, r: real)
    ensures 2.0 * p * r <= (p + r) / 2.0 * (p + r)
  {
    assert (p - r) * (p - r) >= 0.0;
  }

  /** Every category's measures are proportions, with F1 between precision and recall. */
  lemma MeasureBounds(m: Metric, cases: seq<Case>)
    requires Measures(m, cases)
    ensures 0.0 <= m.precision <= 1.0 && 0.0 <= m.recall <= 1.0
    ensures (if m.precision <= m.recall then m.precision else m.recall) <= m.f1
         <= (if m.precision <= m.recall then m.recall else m.precision)
    ensures m.support == 0 ==> m.recall == 0.0 && m.f1 == 0.0
  {
    RatioBounds(m.truePos, m.truePos + m.falsePos);
    RatioBounds(m.truePos, m.truePos + m.falseNeg);
    if m.precision <= m.recall {
      F1Between(m.precision, m.recall);
    } else {
      F1Between(m.recall, m.precision);
    }
    if m.support == 0 {
      assert m.Counter(Support) == Count(cases, Of(Support, m.category));
      assert m.Counter(TruePositive) == Count(cases, Of(TruePositive, m.category));
      CountWithin(cases, Of(TruePositive, m.category), Of(Support, m.category));
    }
  }

  // ---------------------------------------------------------------- what the measures say about the cases

  /** The cases that fulfil the condition. */
  function Chosen(cases: seq<Case>, p: Case -> bool): seq<Case> {
    if cases == [] then []
    else Chosen(cases[..|cases| - 1], p) + if p(cases[|cases| - 1]) then [cases[|cases| - 1]] else []
  }

  /** Counting is choosing: the chosen cases are those with the condition, as often as they occur. */
  lemma {:induction false} CountChooses(cases: seq<Case>, p: Case -> bool, c: Case)
    ensures Count(cases, p) == |Chosen(cases, p)|
    ensures multiset(Chosen(cases, p))[c] == if p(c) then multiset(cases)[c] else 0
  {
    if cases == [] {
    } else {
      var front, last := cases[..|cases| - 1], cases[|cases| - 1];
      CountChooses(front, p, c);
      assert cases == front + [last];
      assert multiset(cases)[c] == multiset(front)[c] + if last == c then 1 else 0;
      assert Chosen(cases, p) == if p(last) then Chosen(front, p) + [last] else Chosen(front, p);
    }
  }

  /** Precision is the share of right ones among the cases predicted to be of the category, recall that among the cases
      expected to be, and F1 their harmonic mean. */
  lemma MeasuresMean(m: Metric, cases: seq<Case>)
    requires Measures(m, cases)
    ensures var predicted := Count(cases, (c: Case) => c.predicted == m.category);
            var expected := Count(cases, (c: Case) => c.expected == m.category);
            var right := Count(cases, (c: Case) => c.expected == m.category && c.predicted == m.category);
            && m.support == expected && m.truePos == right && m.falsePos == predicted - right && m.falseNeg == expected - right
            && IsShare(m.precision, right, predicted) && IsShare(m.recall, right, expected)
            && IsHarmonic(m.f1, m.precision, m.recall)
  {
    var l := m.category;
    var predicted, expected := (c: Case) => c.predicted == l, (c: Case) => c.expected == l;
    var right := (c: Case) => c.expected == l && c.predicted == l;
    assert m.Counter(Support) == Count(cases, Of(Support, l));
    assert m.Counter(TruePositive) == Count(cases, Of(TruePositive, l));
    assert m.Counter(FalsePositive) == Count(cases, Of(FalsePositive, l));
    assert m.Counter(FalseNegative) == Count(cases, Of(FalseNegative, l));
    CountSame(cases, Of(Support, l), expected);
    CountSame(cases, Of(TruePositive, l), right);
    CountAdds(cases, Of(TruePositive, l), Of(FalsePositive, l), predicted);
    CountAdds(cases, Of(TruePositive, l), Of(FalseNegative, l), expected);
    RatioIsShare(m.truePos, m.truePos + m.falsePos);
    RatioIsShare(m.truePos, m.truePos + m.falseNeg);
    MeasureBounds(m, cases);
    F1IsHarmonic(m.precision, m.recall);
  }

  predicate IsShare(x: real, part: nat, all: nat) {
    x * all as real == part as real && (all == 0 ==> x == 0.0)
  }

  predicate IsHarmonic(x: real, p: real, r: real) {
    x * (p + r) == 2.0 * p * r && (p + r == 0.0 ==> x == 0.0)
  }

  lemma RatioIsShare(part: nat, all: nat)
    requires part <= all
    ensures IsShare(Ratio(part, all), part, all)
  {}

  lemma F1IsHarmonic(p: real, r: real)
    requires p >= 0.0 && r >= 0.0
    ensures IsHarmonic(F1(p, r), p, r)
  {}

  /** The counters of a report: right answers, cases with one, and the cases that are listed as misclassified. */
  lemma ReportMeans(r: Report, cases: seq<Case>, c: Case)
    requires Counted(r, cases)
    ensures r.cases == |cases|
    ensures r.correct == Count(cases, (x: Case) => x.predicted == x.expected)
    ensures r.unknown == Count(cases, (x: Case) => x.predicted == "UNKNOWN")
    ensures r.covered == r.cases - r.unknown
    ensures r.coveredCorrect == Count(cases, (x: Case) => x.predicted == x.expected && x.predicted != "UNKNOWN")
    ensures r.attribution.asked == Count(cases, (x: Case) => x.attribution != None)
    ensures r.attribution.right == Count(cases, (x: Case) => x.attribution == Some(true))
    ensures r.provider.asked == Count(cases, (x: Case) => x.provider != None)
    ensures r.provider.right == Count(cases, (x: Case) => x.provider == Some(true))
    ensures r.family.asked == Count(cases, (x: Case) => x.family != None)
    ensures r.family.right == Count(cases, (x: Case) => x.family == Some(true))
    ensures c in r.misclassified <==>
              c in cases && !(c.predicted == c.expected && c.attribution != Some(false) && c.provider != Some(false)
                              && c.family != Some(false))
  {
    CountSame(cases, Correct(), (x: Case) => x.predicted == x.expected);
    CountSame(cases, Uncovered(), (x: Case) => x.predicted == "UNKNOWN");
    CountSame(cases, CoveredCorrect(), (x: Case) => x.predicted == x.expected && x.predicted != "UNKNOWN");
    CountSame(cases, Asks(Attribution), (x: Case) => x.attribution != None);
    CountSame(cases, Answers(Attribution), (x: Case) => x.attribution == Some(true));
    CountSame(cases, Asks(Provider), (x: Case) => x.provider != None);
    CountSame(cases, Answers(Provider), (x: Case) => x.provider == Some(true));
    CountSame(cases, Asks(Family), (x: Case) => x.family != None);
    CountSame(cases, Answers(Family), (x: Case) => x.family == Some(true));
    var every := (x: Case) => true;
    CountAdds(cases, Covered(), Uncovered(), every);
    CountAll(cases, every);
    WrongMember(cases, c);
  }

  lemma {:induction false} WrongMember(cases: seq<Case>, c: Case)
    ensures c in WrongOnes(cases) <==> c in cases && Wrong(c)
  {
    if cases == [] {
    } else {
      var front, last := cases[..|cases| - 1], cases[|cases| - 1];
      WrongMember(front, c);
      assert cases == front + [last];
    }
  }
}
