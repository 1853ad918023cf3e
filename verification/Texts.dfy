/** Log texts as sequences of code points, and the substring vocabulary the matcher is stated in.
    A unit below 128 is an ASCII character; every other unit stands for a non-ASCII rune. */
module Texts {

  type Text = seq<nat>

  const NEWLINE: nat := 10
  const RETURN: nat := 13
  const ALPHABET: nat := 128

  function LowerUnit(u: nat): nat {
    if 65 <= u <= 90 then u + 32 else u
  }

  function Lower(t: Text): (r: Text)
    ensures |r| == |t|
    ensures forall i :: 0 <= i < |t| ==> r[i] == LowerUnit(t[i])
  {
    seq(|t|, i requires 0 <= i < |t| => LowerUnit(t[i]))
  }

  predicate IsAscii(t: Text) {
    forall i :: 0 <= i < |t| ==> t[i] < ALPHABET
  }

  predicate IsSuffix(h: Text, t: Text) {
    |h| <= |t| && t[|t| - |h|..] == h
  }

  predicate OccursAt(t: Text, h: Text, k: nat) {
    k + |h| <= |t| && t[k..k + |h|] == h
  }

  ghost predicate Contains(t: Text, h: Text) {
    exists k: nat :: OccursAt(t, h, k)
  }

  lemma LowerAppend(t: Text, u: nat)
    ensures Lower(t + [u]) == Lower(t) + [LowerUnit(u)]
  {
  }

  lemma LowerSlice(t: Text, i: nat, j: nat)
    requires i <= j <= |t|
    ensures Lower(t[i..j]) == Lower(t)[i..j]
  {
  }

  lemma SliceOfSlice(t: Text, a: nat, b: nat, i: nat, j: nat)
    requires a <= b <= |t| && i <= j <= b - a
    ensures t[a..b][i..j] == t[a + i..a + j]
  {
    var left, right := t[a..b][i..j], t[a + i..a + j];
    assert forall k :: 0 <= k < j - i ==> left[k] == right[k];
  }

  /** Growing a text by one unit adds exactly the occurrences that end there. */
  lemma ContainsAppend(t: Text, u: nat, h: Text)
    ensures Contains(t + [u], h) <==> Contains(t, h) || IsSuffix(h, t + [u])
  {
    var r := t + [u];
    forall k: nat | OccursAt(t, h, k) ensures OccursAt(r, h, k) {
      assert r[k..k + |h|] == t[k..k + |h|];
    }
    forall k: nat | OccursAt(r, h, k) ensures Contains(t, h) || IsSuffix(h, r) {
      if k + |h| <= |t| {
        assert r[k..k + |h|] == t[k..k + |h|];
        assert OccursAt(t, h, k);
      } else {
        assert k == |r| - |h|;
      }
    }
    if IsSuffix(h, r) {
      assert OccursAt(r, h, |r| - |h|);
    }
  }

  /** A substring of a slice is a substring of the whole. */
  lemma ContainsWiden(t: Text, i: nat, j: nat, h: Text)
    requires i <= j <= |t|
    requires Contains(t[i..j], h)
    ensures Contains(t, h)
  {
    var k: nat :| OccursAt(t[i..j], h, k);
    forall m | 0 <= m < |h| ensures t[i + k..i + k + |h|][m] == h[m] {
      assert h[m] == t[i..j][k..k + |h|][m];
    }
    assert OccursAt(t, h, i + k);
  }

  /** Length of the text in bytes, encoded in UTF-8. */
  function ByteLength(t: Text): nat {
    if t == [] then 0
    else ByteLength(t[1..])
         + if t[0] < 0x80 then 1 else if t[0] < 0x800 then 2 else if t[0] < 0x1_0000 then 3 else 4
  }

  /** A unit takes as few bytes as hold it, and texts one after the other take what they take. */
  lemma {:induction false} ByteLengthAdds(s: Text, t: Text, u: nat)
    ensures ByteLength([]) == 0 && ByteLength(s + t) == ByteLength(s) + ByteLength(t)
    ensures 1 <= ByteLength([u]) <= 4
    ensures (ByteLength([u]) <= 1 <==> u < 128) && (ByteLength([u]) <= 2 <==> u < 2048) && (ByteLength([u]) <= 3 <==> u < 65536)
  {
    assert [u][1..] == [];
    if s == [] {
      assert s + t == t;
    } else {
      ByteLengthAdds(s[1..], t, u);
      assert (s + t)[1..] == s[1..] + t;
    }
  }

  /** The pure ASCII texts are those of one byte for each unit. */
  lemma {:induction false} AsciiIs(t: Text)
    ensures ByteLength(t) >= |t|
    ensures IsAscii(t) <==> ByteLength(t) == |t|
  {
    if t != [] {
      AsciiIs(t[1..]);
      assert t == [t[0]] + t[1..];
    }
  }

  // ---------------------------------------------------------------- lines

  predicate NewlineFree(t: Text, i: nat, j: nat)
    requires i <= j <= |t|
  {
    forall k :: i <= k < j ==> t[k] != NEWLINE
  }

  predicate AtLineStart(t: Text, i: nat)
    requires i <= |t|
  {
    i == 0 || t[i - 1] == NEWLINE
  }

  predicate AtLineEnd(t: Text, i: nat)
    requires i <= |t|
  {
    i == |t| || t[i] == NEWLINE
  }

  /** The stretch of t from a to b starts and ends where a line does. */
  predicate LineBounds(t: Text, a: nat, b: nat) {
    a <= b <= |t| && AtLineStart(t, a) && AtLineEnd(t, b)
  }

  /** The lines of a text: what is between its newlines. */
  function Split(t: Text): seq<Text> {
    SplitFrom(t, 0, 0)
  }

  /** The lines from position a on, when nothing between a and i is a newline. */
  function SplitFrom(t: Text, a: nat, i: nat): (r: seq<Text>)
    requires a <= i <= |t|
    ensures r != []
    decreases |t| - i
  {
    if i == |t| then [t[a..]]
    else if t[i] == NEWLINE then [t[a..i]] + SplitFrom(t, i + 1, i + 1)
    else SplitFrom(t, a, i + 1)
  }

  function Join(lines: seq<Text>): Text {
    if lines == [] then []
    else if |lines| == 1 then lines[0]
    else lines[0] + [NEWLINE] + Join(lines[1..])
  }

  /** Joining the lines with newlines gives the text back. */
  lemma {:induction false} JoinSplit(t: Text, a: nat, i: nat)
    requires a <= i <= |t|
    ensures Join(SplitFrom(t, a, i)) == t[a..]
    decreases |t| - i
  {
    if i == |t| {
    } else {
      if t[i] == NEWLINE {
        JoinSplit(t, i + 1, i + 1);
        var rest := SplitFrom(t, i + 1, i + 1);
        assert ([t[a..i]] + rest)[1..] == rest;
        assert t[a..] == t[a..i] + [NEWLINE] + t[i + 1..];
      } else {
        JoinSplit(t, a, i + 1);
      }
    }
  }

  /** Every line is a newline-free stretch of the text with line ends on both sides. */
  lemma {:induction false} SplitSound(t: Text, a: nat, i: nat, line: Text) returns (x: nat, y: nat)
    requires a <= i <= |t| && AtLineStart(t, a) && NewlineFree(t, a, i)
    requires line in SplitFrom(t, a, i)
    ensures LineBounds(t, x, y) && NewlineFree(t, x, y) && line == t[x..y]
    decreases |t| - i
  {
    if i == |t| {
      x, y := a, i;
    } else if t[i] == NEWLINE {
      if line == t[a..i] {
        x, y := a, i;
      } else {
        x, y := SplitSound(t, i + 1, i + 1, line);
      }
    } else {
      x, y := SplitSound(t, a, i + 1, line);
    }
  }

  /** Every such stretch is one of the lines. */
  lemma {:induction false} SplitComplete(t: Text, a: nat, i: nat, x: nat, y: nat)
    requires a <= i <= |t| && NewlineFree(t, a, i)
    requires LineBounds(t, x, y) && NewlineFree(t, x, y) && a <= x && AtLineStart(t, a)
    ensures t[x..y] in SplitFrom(t, a, i)
    decreases |t| - i
  {
    if i == |t| {
      assert !(x > a);
      assert y == i && t[a..] == t[a..i];
    } else if t[i] == NEWLINE {
      if x > i {
        SplitComplete(t, i + 1, i + 1, x, y);
      } else {
        assert !(x > a);
        assert y == i;
      }
    } else {
      SplitComplete(t, a, i + 1, x, y);
    }
  }

  /** A newline-free span lies in one line. */
  lemma LineAround(t: Text, i: nat, j: nat) returns (a: nat, b: nat)
    requires i <= j <= |t| && NewlineFree(t, i, j)
    ensures LineBounds(t, a, b) && a <= i <= j <= b
    ensures NewlineFree(t, a, b) && t[a..b] in Split(t)
  {
    a, b := i, j;
    while a > 0 && t[a - 1] != NEWLINE
      invariant a <= i && NewlineFree(t, a, b)
    {
      a := a - 1;
    }
    while b < |t| && t[b] != NEWLINE
      invariant j <= b <= |t| && NewlineFree(t, a, b)
    {
      b := b + 1;
    }
    SplitComplete(t, 0, 0, a, b);
  }
}
