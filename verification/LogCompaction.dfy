/** The compacted view of a large log: its head, its tail and the surroundings of diagnostic lines. */
module LogCompaction {
  import opened Texts

  const MAX_DIRECT_MATCH_LOG_BYTES := 96 * 1024

  /** "\n... omitted log lines ...\n" */
  const OMITTED: Text := [10, 46, 46, 46, 32, 111, 109, 105, 116, 116, 101, 100, 32, 108, 111, 103, 32,
                          108, 105, 110, 101, 115, 32, 46, 46, 46, 10]

  function ReplaceCrLf(t: Text): Text {
    if t == [] then []
    else if |t| >= 2 && t[0] == RETURN && t[1] == NEWLINE then [NEWLINE] + ReplaceCrLf(t[2..])
    else [t[0]] + ReplaceCrLf(t[1..])
  }

  function ReplaceCr(t: Text): Text {
    seq(|t|, i requires 0 <= i < |t| => if t[i] == RETURN then NEWLINE else t[i])
  }

  function NormalizeNewlines(t: Text): Text {
    ReplaceCr(ReplaceCrLf(t))
  }

  // ---------------------------------------------------------------- the selection

  /** The first 64 and the last 96 lines, and from 4 lines before to 12 after each diagnostic line. */
  ghost predicate Selected(lines: seq<Text>, diagnostic: Text -> bool, i: int)
    requires 0 <= i < |lines|
  {
    || i < 64
    || i >= |lines| - 96
    || exists k :: 0 <= k < |lines| && diagnostic(lines[k]) && k - 4 <= i <= k + 12
  }

  method MarkRange(selected: array<bool>, start: int, end: int)
    modifies selected
    ensures forall i :: 0 <= i < selected.Length
              ==> selected[i] == (old(selected[i]) || start <= i <= end)
  {
    var first := if start < 0 then 0 else start;
    var last := if end >= selected.Length then selected.Length - 1 else end;
    var i := first;
    while i <= last
      invariant first <= i
      invariant forall k :: 0 <= k < selected.Length
                  ==> selected[k] == (old(selected[k]) || (first <= k < i && k <= last))
    {
      selected[i] := true;
      i := i + 1;
    }
  }

  method SelectLines(lines: seq<Text>, diagnostic: Text -> bool) returns (selected: array<bool>)
    ensures fresh(selected) && selected.Length == |lines|
    ensures forall i :: 0 <= i < |lines| ==> (selected[i] <==> Selected(lines, diagnostic, i))
  {
    selected := new bool[|lines|](i => false);
    MarkRange(selected, 0, 63);
    MarkRange(selected, |lines| - 96, |lines| - 1);
    for n := 0 to |lines|
      invariant forall i :: 0 <= i < |lines| ==>
        (selected[i] <==> i < 64 || i >= |lines| - 96
                          || exists k :: 0 <= k < n && diagnostic(lines[k]) && k - 4 <= i <= k + 12)
    {
      if diagnostic(lines[n]) {
        MarkRange(selected, n - 4, n + 12);
      }
    }
  }

  // ---------------------------------------------------------------- the output

  datatype Piece = Line(index: nat) | Gap

  /** The pieces written for the first k lines. */
  function Pieces(selected: seq<bool>, k: nat): seq<Piece>
    requires k <= |selected|
  {
    if k == 0 then []
    else
      var before := Pieces(selected, k - 1);
      if !selected[k - 1] then before
      else if before != [] && (k < 2 || before[|before| - 1] != Line(k - 2)) then before + [Gap, Line(k - 1)]
      else before + [Line(k - 1)]
  }

  function Written(piece: Piece, lines: seq<Text>): Text {
    match piece
    case Gap => OMITTED
    case Line(i) => if i < |lines| then lines[i] + [NEWLINE] else []
  }

  function Writer(lines: seq<Text>): Piece -> Text {
    (p: Piece) => Written(p, lines)
  }

  /** What is written for the pieces, one after the other. */
  function RenderBy(pieces: seq<Piece>, writer: Piece -> Text): Text {
    if pieces == [] then [] else RenderBy(pieces[..|pieces| - 1], writer) + writer(pieces[|pieces| - 1])
  }

  function Render(pieces: seq<Piece>, lines: seq<Text>): Text {
    RenderBy(pieces, Writer(lines))
  }

  lemma RenderSnoc(before: seq<Piece>, p: Piece, writer: Piece -> Text)
    ensures RenderBy(before + [p], writer) == RenderBy(before, writer) + writer(p)
  {
    assert (before + [p])[..|before|] == before;
  }

  lemma PieceAdded(selected: seq<bool>, i: nat)
    requires i < |selected| && selected[i]
    requires Pieces(selected, i) != [] && (i == 0 || Pieces(selected, i)[|Pieces(selected, i)| - 1] != Line(i - 1))
    ensures Pieces(selected, i + 1) == Pieces(selected, i) + [Gap] + [Line(i)]
  {}

  /** What the next selected line adds: itself, with the marker before it when there is a gap. */
  lemma NextWritten(selected: seq<bool>, i: nat, gap: bool, writer: Piece -> Text)
    requires i < |selected| && selected[i]
    requires gap <==> Pieces(selected, i) != [] && (i == 0 || Pieces(selected, i)[|Pieces(selected, i)| - 1] != Line(i - 1))
    ensures RenderBy(Pieces(selected, i + 1), writer)
         == RenderBy(Pieces(selected, i), writer) + (if gap then writer(Gap) else []) + writer(Line(i))
  {
    var before := Pieces(selected, i);
    if gap {
      PieceAdded(selected, i);
      RenderSnoc(before, Gap, writer);
      RenderSnoc(before + [Gap], Line(i), writer);
    } else {
      RenderSnoc(before, Line(i), writer);
      assert RenderBy(before, writer) + [] == RenderBy(before, writer);
    }
  }

  /** Which lines are written: exactly the selected ones, in their original order. */
  ghost predicate InOrder(pieces: seq<Piece>, selected: seq<bool>, k: nat)
    requires k <= |selected|
  {
    && (forall i :: 0 <= i < k ==> (selected[i] <==> Line(i) in pieces))
    && (forall x :: 0 <= x < |pieces| && pieces[x].Line? ==> pieces[x].index < k)
    && (forall x, y :: 0 <= x < y < |pieces| && pieces[x].Line? && pieces[y].Line?
          ==> pieces[x].index < pieces[y].index)
  }

  /** Where the markers are: one between two written lines that are not neighbours, and nowhere else. */
  ghost predicate GapsMarked(pieces: seq<Piece>) {
    forall x :: 0 <= x < |pieces| ==> MarkedAt(pieces, x)
  }

  ghost predicate MarkedAt(pieces: seq<Piece>, x: nat)
    requires x < |pieces|
  {
    match pieces[x]
    case Gap =>
      && 0 < x < |pieces| - 1 && pieces[x - 1].Line? && pieces[x + 1].Line?
      && pieces[x - 1].index + 1 < pieces[x + 1].index
    case Line(i) =>
      x > 0 && pieces[x - 1].Line? ==> pieces[x - 1].index + 1 == i
  }

  lemma {:induction false} PiecesInOrder(selected: seq<bool>, k: nat)
    requires k <= |selected|
    ensures InOrder(Pieces(selected, k), selected, k)
  {
    if k == 0 {
    } else {
      PiecesInOrder(selected, k - 1);
      var before, pieces := Pieces(selected, k - 1), Pieces(selected, k);
      forall i | 0 <= i < k ensures selected[i] <==> Line(i) in pieces {
        if i < k - 1 {
          assert Line(i) in pieces <==> Line(i) in before;
        } else if selected[i] {
          assert pieces[|pieces| - 1] == Line(i);
        }
      }
    }
  }

  lemma {:induction false} PiecesMarked(selected: seq<bool>, k: nat)
    requires k <= |selected|
    ensures GapsMarked(Pieces(selected, k))
    ensures var p := Pieces(selected, k); p != [] ==> p[|p| - 1].Line? && p[|p| - 1].index < k
  {
    if k == 0 {
    } else {
      PiecesMarked(selected, k - 1);
      if selected[k - 1] {
        MarkedSnoc(Pieces(selected, k - 1), k - 1);
      }
    }
  }

  /** Writing one more line after marked pieces, with a marker when it is not the next one. */
  lemma MarkedSnoc(before: seq<Piece>, i: nat)
    requires GapsMarked(before)
    requires before != [] ==> before[|before| - 1].Line? && before[|before| - 1].index < i
    ensures before == [] || before[|before| - 1].index + 1 == i ==> GapsMarked(before + [Line(i)])
    ensures before != [] && before[|before| - 1].index + 1 != i ==> GapsMarked(before + [Gap, Line(i)])
  {
    var next, gapped := before + [Line(i)], before + [Gap, Line(i)];
    forall x | 0 <= x < |before| ensures MarkedAt(next, x) && MarkedAt(gapped, x) {
      assert MarkedAt(before, x);
    }
  }

  ghost function SelectionOf(lines: seq<Text>, diagnostic: Text -> bool): (r: seq<bool>)
    ensures |r| == |lines|
    ensures forall i :: 0 <= i < |r| ==> (r[i] <==> Selected(lines, diagnostic, i))
  {
    seq(|lines|, i requires 0 <= i < |lines| => Selected(lines, diagnostic, i))
  }

  /** The compacted log. */
  ghost function Compacted(log: Text, diagnostic: Text -> bool): Text {
    if ByteLength(log) <= MAX_DIRECT_MATCH_LOG_BYTES then log
    else
      var lines := Split(NormalizeNewlines(log));
      Render(Pieces(SelectionOf(lines, diagnostic), |lines|), lines)
  }

  method CompactMatchLog(log: Text, diagnostic: Text -> bool) returns (out: Text)
    ensures out == Compacted(log, diagnostic)
  {
    if ByteLength(log) <= MAX_DIRECT_MATCH_LOG_BYTES {
      return log;
    }
    var lines := Split(NormalizeNewlines(log));
    var selected := SelectLines(lines, diagnostic);
    ghost var flags := SelectionOf(lines, diagnostic);
    out := [];
    var previous := -2;
    for i := 0 to |lines|
      invariant forall k :: 0 <= k < |lines| ==> selected[k] == flags[k]
      invariant out == Render(Pieces(flags, i), lines)
      invariant -2 == previous <==> Pieces(flags, i) == []
      invariant Pieces(flags, i) != [] ==>
                  0 <= previous < i && Pieces(flags, i)[|Pieces(flags, i)| - 1] == Line(previous)
      invariant previous == -2 || previous >= 0
    {
      if !selected[i] {
        continue;
      }
      NextWritten(flags, i, previous >= 0 && i != previous + 1, Writer(lines));
      if previous >= 0 && i != previous + 1 {
        out := out + OMITTED;
      }
      out := out + (lines[i] + [NEWLINE]);
      previous := i;
    }
  }

  /** For a log over the limit: the lines kept are exactly the selected ones in order, with a marker
      for every gap between them. */
  lemma CompactionShape(log: Text, diagnostic: Text -> bool) returns (lines: seq<Text>, pieces: seq<Piece>)
    requires ByteLength(log) > MAX_DIRECT_MATCH_LOG_BYTES
    ensures Join(lines) == NormalizeNewlines(log)
    ensures Compacted(log, diagnostic) == Render(pieces, lines)
    ensures forall i :: 0 <= i < |lines| ==> (Selected(lines, diagnostic, i) <==> Line(i) in pieces)
    ensures forall x, y :: 0 <= x < y < |pieces| && pieces[x].Line? && pieces[y].Line?
              ==> pieces[x].index < pieces[y].index < |lines|
    ensures GapsMarked(pieces)
  {
    var text := NormalizeNewlines(log);
    lines := Split(text);
    JoinSplit(text, 0, 0);
    assert text[0..] == text;
    var flags := SelectionOf(lines, diagnostic);
    pieces := Pieces(flags, |lines|);
    PiecesInOrder(flags, |lines|);
    PiecesMarked(flags, |lines|);
  }

  /** Of a log over the limit exactly these lines are kept: the first 64, the last 96, and those from 4 before to 12 after
      a diagnostic one; a shorter log is kept as it is. */
  lemma LinesKept(log: Text, diagnostic: Text -> bool) returns (lines: seq<Text>, kept: seq<Piece>)
    ensures ByteLength(log) <= 98304 ==> Compacted(log, diagnostic) == log
    ensures ByteLength(log) > 98304 ==> Join(lines) == NormalizeNewlines(log) && Compacted(log, diagnostic) == Render(kept, lines)
    ensures ByteLength(log) > 98304 ==> forall i :: 0 <= i < |lines| && (i < 64 || i + 96 >= |lines|) ==> Line(i) in kept
    ensures ByteLength(log) > 98304 ==>
              forall i, k :: 0 <= k < |lines| && 0 <= i < |lines| && -5 < i - k < 13 && diagnostic(lines[k]) ==> Line(i) in kept
    ensures ByteLength(log) > 98304 ==>
              forall i :: 64 <= i < |lines| - 96 && Line(i) in kept ==>
                exists k :: 0 <= k < |lines| && -5 < i - k < 13 && diagnostic(lines[k])
  {
    lines, kept := [], [];
    if ByteLength(log) > MAX_DIRECT_MATCH_LOG_BYTES {
      lines, kept := CompactionShape(log, diagnostic);
      forall i, k | 0 <= k < |lines| && 0 <= i < |lines| && -5 < i - k < 13 && diagnostic(lines[k]) ensures Line(i) in kept {
        assert k - 4 <= i <= k + 12;
        assert Selected(lines, diagnostic, i);
      }
    }
  }

  // ---------------------------------------------------------------- what is written

  /** A carriage return before a newline is dropped, any other becomes a newline, and nothing else changes. */
  lemma NewlinesOf(u: nat, rest: Text)
    ensures NormalizeNewlines([]) == []
    ensures u != 13 ==> NormalizeNewlines([u] + rest) == [u] + NormalizeNewlines(rest)
    ensures rest != [] && rest[0] == 10 ==> NormalizeNewlines([13] + rest) == NormalizeNewlines(rest)
    ensures rest == [] || rest[0] != 10 ==> NormalizeNewlines([13] + rest) == [10] + NormalizeNewlines(rest)
  {
    var t, r := [u] + rest, [13] + rest;
    assert t[1..] == rest == r[1..];
    if rest != [] && rest[0] == 10 {
      assert r[2..] == rest[1..];
      assert ReplaceCrLf(r) == [10] + ReplaceCrLf(rest[1..]) == ReplaceCrLf(rest);
    } else {
      assert ReplaceCrLf(r) == [13] + ReplaceCrLf(rest);
      assert ReplaceCr([13] + ReplaceCrLf(rest)) == [10] + ReplaceCr(ReplaceCrLf(rest));
    }
    if u != 13 {
      assert ReplaceCrLf(t) == [u] + ReplaceCrLf(rest);
      assert ReplaceCr([u] + ReplaceCrLf(rest)) == [u] + ReplaceCr(ReplaceCrLf(rest));
    }
  }

  /** The pieces are written one after the other. */
  lemma {:induction false} RenderSplits(a: seq<Piece>, b: seq<Piece>, writer: Piece -> Text)
    ensures RenderBy(a + b, writer) == RenderBy(a, writer) + RenderBy(b, writer)
  {
    if b == [] {
      assert a + b == a;
    } else {
      var front, last := b[..|b| - 1], b[|b| - 1];
      RenderSplits(a, front, writer);
      assert b == front + [last];
      Regroup(a, front, [last]);
      RenderSnoc(front, last, writer);
      RenderSnoc(a + front, last, writer);
      Regroup(RenderBy(a, writer), RenderBy(front, writer), writer(last));
    }
  }

  lemma Regroup<T>(a: seq<T>, b: seq<T>, c: seq<T>)
    ensures a + b + c == a + (b + c)
  {}

  lemma RenderOne(p: Piece, writer: Piece -> Text)
    ensures RenderBy([p], writer) == writer(p)
  {
    assert [p][..0] == [];
    assert RenderBy([], writer) + writer(p) == writer(p);
  }

  /** A line is written with a newline after it, and a gap as the marker. */
  lemma LineWritten(lines: seq<Text>, i: nat)
    requires i < |lines|
    ensures Render([Line(i)], lines) == lines[i] + [10]
  {
    RenderOne(Line(i), Writer(lines));
  }

  lemma GapWritten(lines: seq<Text>)
    ensures Render([Gap], lines) == OMITTED
  {
    RenderOne(Gap, Writer(lines));
  }

  lemma Marker()
    ensures OMITTED == Units("\n... omitted log lines ...\n")
  {}

  function Units(s: string): Text {
    seq(|s|, i requires 0 <= i < |s| => s[i] as nat)
  }

  lemma {:induction false} AllPieces(lines: seq<Text>, selected: seq<bool>, k: nat)
    requires k <= |lines| == |selected| && forall i :: 0 <= i < k ==> selected[i]
    ensures k > 0 ==> Pieces(selected, k) != [] && Pieces(selected, k)[|Pieces(selected, k)| - 1] == Line(k - 1)
    ensures k > 0 ==> Pieces(selected, k) == Pieces(selected, k - 1) + [Line(k - 1)]
  {
    if k == 0 {
    } else {
      AllPieces(lines, selected, k - 1);
    }
  }

  lemma {:induction false} AllWritten(lines: seq<Text>, selected: seq<bool>, k: nat)
    requires 0 < k <= |lines| == |selected| && forall i :: 0 <= i < k ==> selected[i]
    ensures Render(Pieces(selected, k), lines) == Join(lines[..k]) + [10]
  {
    AllPieces(lines, selected, k);
    RenderSnoc(Pieces(selected, k - 1), Line(k - 1), Writer(lines));
    assert lines[..k] == lines[..k - 1] + [lines[k - 1]];
    if k == 1 {
      assert lines[..1] == [lines[0]];
    } else {
      AllWritten(lines, selected, k - 1);
      JoinSnoc(lines[..k - 1], lines[k - 1]);
    }
  }

  lemma {:induction false} JoinSnoc(front: seq<Text>, last: Text)
    requires front != []
    ensures Join(front + [last]) == Join(front) + [10] + last
  {
    if |front| == 1 {
      assert (front + [last])[1..] == [last];
    } else {
      JoinSnoc(front[1..], last);
      assert (front + [last])[1..] == front[1..] + [last];
    }
  }

  /** When every line is selected, the compacted log is the whole log with a newline after it. */
  lemma NothingOmitted(log: Text, diagnostic: Text -> bool)
    requires ByteLength(log) > 96 * 1024
    requires var lines := Split(NormalizeNewlines(log)); forall i :: 0 <= i < |lines| ==> Selected(lines, diagnostic, i)
    ensures Compacted(log, diagnostic) == NormalizeNewlines(log) + [10]
  {
    var text := NormalizeNewlines(log);
    var lines := Split(text);
    JoinSplit(text, 0, 0);
    assert text[0..] == text && lines != [];
    AllWritten(lines, SelectionOf(lines, diagnostic), |lines|);
    assert lines[..|lines|] == lines;
  }
}
