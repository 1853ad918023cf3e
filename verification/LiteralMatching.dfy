/** The Aho-Corasick automaton that finds every registered literal in a log line. */
module LiteralMatching {
  import opened Texts

  datatype LiteralNode = LiteralNode(next: seq<nat>, fail: nat, out: seq<Text>)

  datatype PatternHint = PatternHint(literals: seq<Text>, multiline: bool)

  datatype RuleHints = RuleHints(patterns: seq<PatternHint>, excludes: seq<PatternHint>)

  type HintLines = map<Text, seq<Text>>

  const BLANK_NODE := LiteralNode(seq(ALPHABET, i => 0), 0, [])

  function LinesOf(lines: HintLines, h: Text): seq<Text> {
    if h in lines then lines[h] else []
  }

  /** The entry of h gained the line as its last element, or did not change. */
  predicate Extended(found: HintLines, base: HintLines, h: Text, text: Text, hit: bool) {
    LinesOf(found, h) == if hit then LinesOf(base, h) + [text] else LinesOf(base, h)
  }

  function AllLiterals(hints: seq<PatternHint>): set<Text> {
    set p, h | p in hints && h in p.literals :: h
  }

  function RuleLiterals(rules: seq<RuleHints>): set<Text> {
    set r, h | r in rules && h in AllLiterals(r.patterns) + AllLiterals(r.excludes) :: h
  }

  /** The literals the automaton can report: non-empty and pure ASCII. */
  predicate Usable(h: Text) {
    h != [] && IsAscii(h)
  }

  // ---------------------------------------------------------------- the trie

  /** `words[s]` spells the path from the root to node s. */
  ghost predicate Trie(nodes: seq<LiteralNode>, words: seq<Text>) {
    && 0 < |nodes| == |words|
    && words[0] == []
    && (forall s :: 0 <= s < |nodes| ==> |nodes[s].next| == ALPHABET)
    && (forall s, b :: 0 <= s < |nodes| && 0 <= b < ALPHABET ==> Spells(nodes, words, s, b))
    && (forall s, r :: 0 <= s < r < |words| ==> Differ(words, s, r))
    && (forall s :: 0 < s < |nodes| ==> HasParent(nodes, s))
  }

  /** An edge leads to the node that spells one unit more; 0 stands for a missing edge. */
  ghost predicate Spells(nodes: seq<LiteralNode>, words: seq<Text>, s: nat, b: nat)
    requires s < |nodes| == |words| && |nodes[s].next| == ALPHABET && b < ALPHABET
  {
    var c := nodes[s].next[b];
    c < |nodes| && (c != 0 ==> words[c] == words[s] + [b])
  }

  ghost predicate Differ(words: seq<Text>, s: nat, r: nat)
    requires s < |words| && r < |words|
  {
    words[s] != words[r]
  }

  lemma SameWord(nodes: seq<LiteralNode>, words: seq<Text>, s: nat, r: nat)
    requires Trie(nodes, words) && s < |words| && r < |words| && words[s] == words[r]
    ensures s == r
  {
    assert s < r ==> Differ(words, s, r);
    assert r < s ==> Differ(words, r, s);
  }

  ghost predicate HasParent(nodes: seq<LiteralNode>, s: nat)
    requires forall p :: 0 <= p < |nodes| ==> |nodes[p].next| == ALPHABET
  {
    exists p, b :: 0 <= p < |nodes| && 0 <= b < ALPHABET && nodes[p].next[b] == s
  }

  /** Two nodes lists with the same edges; the failure links and outputs may differ. */
  ghost predicate SameEdges(nodes: seq<LiteralNode>, others: seq<LiteralNode>) {
    |nodes| == |others| && forall s :: 0 <= s < |nodes| ==> nodes[s].next == others[s].next
  }

  lemma TrieOfSameEdges(nodes: seq<LiteralNode>, others: seq<LiteralNode>, words: seq<Text>)
    requires Trie(nodes, words) && SameEdges(nodes, others)
    ensures Trie(others, words)
  {
    forall s, b | 0 <= s < |others| && 0 <= b < ALPHABET ensures Spells(others, words, s, b) {
      assert Spells(nodes, words, s, b);
    }
    forall s | 0 < s < |others| ensures HasParent(others, s) {
      assert HasParent(nodes, s);
      var p, b :| 0 <= p < |nodes| && 0 <= b < ALPHABET && nodes[p].next[b] == s;
      assert others[p].next[b] == s;
    }
  }

  /** An edge exists exactly when the extended word is in the trie. */
  lemma EdgeIffWord(nodes: seq<LiteralNode>, words: seq<Text>, s: nat, c: nat)
    requires Trie(nodes, words) && s < |nodes| && c < |nodes|
    requires |words[c]| > 0 && words[c][..|words[c]| - 1] == words[s]
    ensures words[c][|words[c]| - 1] < ALPHABET
    ensures nodes[s].next[words[c][|words[c]| - 1]] == c
  {
    assert HasParent(nodes, c);
    var p, b :| 0 <= p < |nodes| && 0 <= b < ALPHABET && nodes[p].next[b] == c;
    assert Spells(nodes, words, p, b);
    SameWord(nodes, words, p, s);
  }

  /** The trie is closed under dropping the last unit. */
  lemma ParentNode(nodes: seq<LiteralNode>, words: seq<Text>, c: nat) returns (s: nat)
    requires Trie(nodes, words) && 0 < c < |nodes|
    ensures s < |nodes| && |words[c]| > 0
    ensures words[c][..|words[c]| - 1] == words[s]
    ensures words[c][|words[c]| - 1] < ALPHABET
    ensures nodes[s].next[words[c][|words[c]| - 1]] == c
  {
    assert HasParent(nodes, c);
    var p, b :| 0 <= p < |nodes| && 0 <= b < ALPHABET && nodes[p].next[b] == c;
    assert Spells(nodes, words, p, b);
    s := p;
  }

  /** Hanging a new leaf below node s keeps the trie. */
  lemma TrieGrow(nodes: seq<LiteralNode>, words: seq<Text>, s: nat, b: nat)
    requires Trie(nodes, words) && s < |nodes| && b < ALPHABET
    requires nodes[s].next[b] == 0
    ensures var grown := nodes[s := nodes[s].(next := nodes[s].next[b := |nodes|])] + [BLANK_NODE];
            Trie(grown, words + [words[s] + [b]])
  {
    var n := |nodes|;
    var grown := nodes[s := nodes[s].(next := nodes[s].next[b := n])] + [BLANK_NODE];
    var w := words + [words[s] + [b]];
    forall q, r | 0 <= q < r < |w| ensures Differ(w, q, r) {
      if r < n {
        assert Differ(words, q, r);
      } else if words[q] == words[s] + [b] {
        assert words[q][..|words[q]| - 1] == words[s];
        EdgeIffWord(nodes, words, s, q);
      }
    }
    forall q, x | 0 <= q < |grown| && 0 <= x < ALPHABET ensures Spells(grown, w, q, x) {
      if q < n {
        assert Spells(nodes, words, q, x);
      }
    }
    forall q | 0 < q < |grown| ensures HasParent(grown, q) {
      if q == n {
        assert grown[s].next[b] == n;
      } else {
        assert HasParent(nodes, q);
        var p, x :| 0 <= p < n && 0 <= x < ALPHABET && nodes[p].next[x] == q;
        assert grown[p].next[x] == q;
      }
    }
  }

  // ------------------------------------------------------- failure links, outputs

  /** Node f spells the longest suffix of t that is in the trie. */
  ghost predicate LongestSuffix(words: seq<Text>, t: Text, f: nat) {
    && f < |words|
    && IsSuffix(words[f], t)
    && forall g :: 0 <= g < |words| && IsSuffix(words[g], t) ==> |words[g]| <= |words[f]|
  }

  ghost predicate FailOk(nodes: seq<LiteralNode>, words: seq<Text>, s: nat)
    requires s < |nodes| == |words|
  {
    if s == 0 then nodes[s].fail == 0
    else |words[s]| > 0 && LongestSuffix(words, words[s][1..], nodes[s].fail)
  }

  /** The outputs of node s are the registered literals that end at s. */
  ghost predicate OutOk(nodes: seq<LiteralNode>, words: seq<Text>, hints: set<Text>, s: nat)
    requires s < |nodes| == |words|
  {
    forall h :: h in nodes[s].out <==> h in hints && IsSuffix(h, words[s])
  }

  ghost predicate OwnOut(nodes: seq<LiteralNode>, words: seq<Text>, hints: set<Text>, s: nat)
    requires s < |nodes| == |words|
  {
    nodes[s].out == if words[s] in hints then [words[s]] else []
  }

  ghost predicate Finished(nodes: seq<LiteralNode>, words: seq<Text>, hints: set<Text>, s: nat)
    requires s < |nodes| == |words|
  {
    FailOk(nodes, words, s) && OutOk(nodes, words, hints, s)
  }

  ghost predicate HintsOk(words: seq<Text>, hints: set<Text>) {
    forall h :: h in hints ==> Usable(h) && h in words
  }

  /** The state of a chase along failure links for unit b: f spells a suffix of t, and no longer
      suffix of t in the trie has an edge labelled b. */
  ghost predicate Chasing(nodes: seq<LiteralNode>, words: seq<Text>, t: Text, f: nat, b: nat)
    requires Trie(nodes, words) && b < ALPHABET
  {
    && f < |nodes|
    && IsSuffix(words[f], t)
    && forall g :: 0 <= g < |nodes| && IsSuffix(words[g], t) && |words[g]| > |words[f]|
         ==> nodes[g].next[b] == 0
  }

  lemma SuffixOfSuffix(u: Text, v: Text, t: Text)
    requires IsSuffix(u, t) && IsSuffix(v, t) && |u| <= |v|
    ensures IsSuffix(u, v)
    ensures |u| < |v| ==> IsSuffix(u, v[1..])
    ensures |u| == |v| ==> u == v
  {
    assert v == t[|t| - |v|..];
    assert u == t[|t| - |u|..] == v[|v| - |u|..];
    if |u| < |v| {
      assert u == v[1..][|v| - 1 - |u|..];
    }
  }

  lemma SuffixTrans(u: Text, v: Text, t: Text)
    requires IsSuffix(u, v) && IsSuffix(v, t)
    ensures IsSuffix(u, t)
  {
    assert t[|t| - |u|..] == v[|v| - |u|..];
  }

  lemma SuffixOfTail(u: Text, v: Text)
    requires |v| > 0
    ensures IsSuffix(u, v[1..]) <==> IsSuffix(u, v) && |u| < |v|
  {
    if |u| < |v| {
      assert v[1..][|v| - 1 - |u|..] == v[|v| - |u|..];
    }
  }

  lemma SuffixAppend(u: Text, t: Text, b: nat)
    ensures IsSuffix(u + [b], t + [b]) <==> IsSuffix(u, t)
  {
    if |u| <= |t| {
      assert (t + [b])[|t| - |u|..] == t[|t| - |u|..] + [b];
      if IsSuffix(u + [b], t + [b]) {
        assert t[|t| - |u|..] == (t[|t| - |u|..] + [b])[..|u|] == (u + [b])[..|u|] == u;
      }
    }
  }

  /** One step along a failure link keeps the chase and strictly reduces the depth. */
  lemma ChaseStep(nodes: seq<LiteralNode>, words: seq<Text>, t: Text, f: nat, b: nat)
    requires Trie(nodes, words) && b < ALPHABET
    requires Chasing(nodes, words, t, f, b) && f != 0 && nodes[f].next[b] == 0
    requires FailOk(nodes, words, f)
    ensures Chasing(nodes, words, t, nodes[f].fail, b)
    ensures |words[nodes[f].fail]| < |words[f]|
  {
    var r := nodes[f].fail;
    SuffixOfTail(words[r], words[f]);
    SuffixTrans(words[r], words[f], t);
    forall g | 0 <= g < |nodes| && IsSuffix(words[g], t) && |words[g]| > |words[r]|
      ensures nodes[g].next[b] == 0
    {
      if |words[g]| <= |words[f]| {
        SuffixOfSuffix(words[g], words[f], t);
        if |words[g]| == |words[f]| {
          SameWord(nodes, words, g, f);
        }
      }
    }
  }

  /** When the chase stops, following the edge gives the longest suffix of the extended text. */
  lemma ChaseEnd(nodes: seq<LiteralNode>, words: seq<Text>, t: Text, f: nat, b: nat)
    requires Trie(nodes, words) && b < ALPHABET
    requires Chasing(nodes, words, t, f, b)
    requires f == 0 || nodes[f].next[b] != 0
    ensures LongestSuffix(words, t + [b], nodes[f].next[b])
  {
    var n := nodes[f].next[b];
    assert Spells(nodes, words, f, b);
    if n != 0 {
      SuffixAppend(words[f], t, b);
    }
    forall g | 0 <= g < |words| && IsSuffix(words[g], t + [b])
      ensures |words[g]| <= |words[n]|
    {
      if g != 0 {
        var p := ParentNode(nodes, words, g);
        var x := words[g][|words[g]| - 1];
        assert words[g] == words[p] + [x];
        assert x == b;
        SuffixAppend(words[p], t, b);
        assert nodes[p].next[b] == g != 0;
        if n == 0 && words[p] == words[0] {
          SameWord(nodes, words, p, 0);
        }
      }
    }
  }

  /** A unit outside the alphabet ends every path: only the root is a suffix in the trie. */
  lemma NonAsciiResets(nodes: seq<LiteralNode>, words: seq<Text>, t: Text, u: nat)
    requires Trie(nodes, words) && u >= ALPHABET
    ensures LongestSuffix(words, t + [u], 0)
  {
    forall g | 0 <= g < |words| && IsSuffix(words[g], t + [u]) ensures |words[g]| <= 0 {
      if g != 0 {
        var p := ParentNode(nodes, words, g);
        assert false;
      }
    }
  }

  /** What the current node reports is every registered literal ending at the current unit. */
  lemma OutputsAtState(nodes: seq<LiteralNode>, words: seq<Text>, hints: set<Text>, t: Text, s: nat, h: Text)
    requires 0 < |nodes| == |words| && HintsOk(words, hints)
    requires LongestSuffix(words, t, s) && OutOk(nodes, words, hints, s)
    ensures h in nodes[s].out <==> h in hints && IsSuffix(h, t)
  {
    if h in nodes[s].out {
      SuffixTrans(h, words[s], t);
    }
    if h in hints && IsSuffix(h, t) {
      var g :| 0 <= g < |words| && words[g] == h;
      SuffixOfSuffix(h, words[s], t);
    }
  }

  /** Own outputs plus the outputs inherited over the failure link are complete. */
  lemma InheritedOutputs(nodes: seq<LiteralNode>, words: seq<Text>, hints: set<Text>, c: nat, f: nat,
                         out: seq<Text>)
    requires 0 < |nodes| == |words| && HintsOk(words, hints)
    requires 0 < c < |nodes| && |words[c]| > 0
    requires LongestSuffix(words, words[c][1..], f) && OutOk(nodes, words, hints, f)
    requires OwnOut(nodes, words, hints, c)
    requires out == nodes[c].out + nodes[f].out
    ensures forall h :: h in out <==> h in hints && IsSuffix(h, words[c])
  {
    forall h ensures h in out <==> h in hints && IsSuffix(h, words[c]) {
      OutputsAtState(nodes, words, hints, words[c][1..], f, h);
      SuffixOfTail(h, words[c]);
      if h in hints && IsSuffix(h, words[c]) && |h| == |words[c]| {
        assert h == words[c];
      }
    }
  }

  // ------------------------------------------------------- breadth-first order

  ghost predicate Distinct(queue: seq<nat>) {
    forall i, j :: 0 <= i < j < |queue| ==> queue[i] != queue[j]
  }

  /** Distinct numbers below n: at most n of them. */
  lemma {:induction false} DistinctBound(queue: seq<nat>, n: nat)
    requires Distinct(queue) && forall i :: 0 <= i < |queue| ==> queue[i] < n
    ensures |queue| <= n
    decreases |queue|
  {
    if |queue| == 0 {
    } else {
      var last := queue[|queue| - 1];
      var rest := queue[..|queue| - 1];
      var moved := seq(|rest|, i requires 0 <= i < |rest| =>
                         if rest[i] == n - 1 then last else rest[i]);
      DistinctBound(moved, n - 1);
    }
  }

  /** The parent of node c has been dequeued: its word is the word of a node in the prefix. */
  ghost predicate ParentIn(words: seq<Text>, queue: seq<nat>, c: nat)
    requires c < |words| && |words[c]| > 0
    requires forall i :: 0 <= i < |queue| ==> queue[i] < |words|
  {
    exists m :: 0 <= m < |queue| && words[queue[m]] == words[c][..|words[c]| - 1]
  }

  /** The queue of the breadth-first pass: `head` nodes are done. Nodes leave it in order of depth. */
  ghost predicate InOrder(nodes: seq<LiteralNode>, words: seq<Text>, queue: seq<nat>, head: nat)
    requires Trie(nodes, words)
  {
    && head <= |queue|
    && Distinct(queue)
    && (forall i :: 0 <= i < |queue| ==> 0 < queue[i] < |nodes| && |words[queue[i]]| > 0)
    && (forall i, j :: 0 <= i < j < |queue| ==> |words[queue[i]]| <= |words[queue[j]]|)
    && (head < |queue| ==> forall i :: 0 <= i < |queue| ==> |words[queue[i]]| <= |words[queue[head]]| + 1)
  }

  /** The children of the root and of the nodes handled so far are in the queue; of the node at the
      head, those below unit `limit`. */
  ghost predicate Reached(nodes: seq<LiteralNode>, words: seq<Text>, queue: seq<nat>, head: nat, limit: nat)
    requires Trie(nodes, words) && InOrder(nodes, words, queue, head) && limit <= ALPHABET
  {
    && (forall c :: 0 < c < |nodes| && |words[c]| == 1 ==> c in queue)
    && (forall c :: 0 < c < |nodes| && |words[c]| > 0 && ParentIn(words, queue[..head], c) ==> c in queue)
    && (head < |queue| ==> forall b :: 0 <= b < limit && nodes[queue[head]].next[b] != 0
                             ==> nodes[queue[head]].next[b] in queue)
  }

  /** Node c was enqueued for a reason: its parent is handled, or is at the head and c is one of its
      children below `limit`. */
  ghost predicate Accounted(nodes: seq<LiteralNode>, words: seq<Text>, queue: seq<nat>, head: nat, limit: nat, c: nat)
    requires Trie(nodes, words) && InOrder(nodes, words, queue, head) && limit <= ALPHABET
    requires 0 < c < |nodes| && |words[c]| > 0
  {
    || |words[c]| == 1
    || ParentIn(words, queue[..head], c)
    || (head < |queue| && words[c][..|words[c]| - 1] == words[queue[head]] && words[c][|words[c]| - 1] < limit)
  }

  /** `limit` units of the node at the head are handled; between nodes it is 0. */
  ghost predicate Frontier(nodes: seq<LiteralNode>, words: seq<Text>, queue: seq<nat>, head: nat, limit: nat)
    requires Trie(nodes, words)
  {
    && InOrder(nodes, words, queue, head)
    && limit <= ALPHABET && (limit > 0 ==> head < |queue|)
    && Reached(nodes, words, queue, head, limit)
    && (forall i :: 0 <= i < |queue| ==> Accounted(nodes, words, queue, head, limit, queue[i]))
  }

  /** Every node no deeper than the one at the head is already in the queue. */
  lemma {:induction false} ShallowEnqueued(nodes: seq<LiteralNode>, words: seq<Text>, queue: seq<nat>,
                                           head: nat, limit: nat, c: nat)
    requires Trie(nodes, words) && InOrder(nodes, words, queue, head) && head < |queue|
    requires limit <= ALPHABET && Reached(nodes, words, queue, head, limit)
    requires 0 < c < |nodes| && |words[c]| <= |words[queue[head]]|
    ensures c in queue
    decreases |words[c]|
  {
    var p := ParentNode(nodes, words, c);
    if |words[c]| == 1 {
    } else {
      assert p != 0;
      ShallowEnqueued(nodes, words, queue, head, limit, p);
      var m :| 0 <= m < |queue| && queue[m] == p;
      assert m < head;
      assert queue[..head][m] == p;
      assert ParentIn(words, queue[..head], c);
    }
  }

  lemma QueueBound(nodes: seq<LiteralNode>, words: seq<Text>, queue: seq<nat>, head: nat)
    requires Trie(nodes, words) && InOrder(nodes, words, queue, head)
    ensures |queue| <= |words|
  {
    DistinctBound(queue, |nodes|);
  }

  lemma {:induction false} AllEnqueued(nodes: seq<LiteralNode>, words: seq<Text>, queue: seq<nat>, c: nat)
    requires Trie(nodes, words) && Frontier(nodes, words, queue, |queue|, 0)
    requires 0 < c < |nodes|
    ensures c in queue
    decreases |words[c]|
  {
    var p := ParentNode(nodes, words, c);
    if |words[c]| == 1 {
    } else {
      AllEnqueued(nodes, words, queue, p);
      var m :| 0 <= m < |queue| && queue[m] == p;
      assert queue[..|queue|][m] == p;
      assert ParentIn(words, queue[..|queue|], c);
    }
  }

  /** Skipping a unit without an edge. */
  lemma FrontierSkip(nodes: seq<LiteralNode>, words: seq<Text>, queue: seq<nat>, head: nat, b: nat)
    requires Trie(nodes, words) && Frontier(nodes, words, queue, head, b)
    requires head < |queue| && b < ALPHABET && nodes[queue[head]].next[b] == 0
    ensures Frontier(nodes, words, queue, head, b + 1)
  {
  }

  /** The child found next is not in the queue yet. */
  lemma ChildIsNew(nodes: seq<LiteralNode>, words: seq<Text>, queue: seq<nat>, head: nat, b: nat)
    requires Trie(nodes, words) && Frontier(nodes, words, queue, head, b)
    requires head < |queue| && b < ALPHABET && nodes[queue[head]].next[b] != 0
    ensures nodes[queue[head]].next[b] !in queue
  {
    var state := queue[head];
    var child := nodes[state].next[b];
    assert Spells(nodes, words, state, b);
    assert words[child][..|words[child]| - 1] == words[state];
    if child in queue {
      var i :| 0 <= i < |queue| && queue[i] == child;
      assert Accounted(nodes, words, queue, head, b, queue[i]);
      var m :| 0 <= m < |queue[..head]| && words[queue[..head][m]] == words[child][..|words[child]| - 1];
      SameWord(nodes, words, queue[m], state);
    }
  }

  /** The child is one deeper than the node at the head. */
  lemma ChildWord(nodes: seq<LiteralNode>, words: seq<Text>, state: nat, b: nat)
    requires Trie(nodes, words) && state < |nodes| && b < ALPHABET && nodes[state].next[b] != 0
    ensures var child := nodes[state].next[b];
            && 0 < child < |nodes| && |words[child]| == |words[state]| + 1
            && words[child][..|words[child]| - 1] == words[state] && words[child][|words[child]| - 1] == b
  {
    assert Spells(nodes, words, state, b);
  }

  lemma PushInOrder(nodes: seq<LiteralNode>, words: seq<Text>, queue: seq<nat>, head: nat, child: nat)
    requires Trie(nodes, words) && InOrder(nodes, words, queue, head) && head < |queue|
    requires 0 < child < |nodes| && child !in queue && |words[child]| == |words[queue[head]]| + 1
    ensures InOrder(nodes, words, queue + [child], head)
  {
    var q := queue + [child];
    forall i, j | 0 <= i < j < |q| ensures |words[q[i]]| <= |words[q[j]]| && q[i] != q[j] {
      if j == |queue| {
        assert |words[queue[i]]| <= |words[queue[head]]| + 1;
      }
    }
  }

  lemma PushReached(nodes: seq<LiteralNode>, words: seq<Text>, queue: seq<nat>, head: nat, b: nat)
    requires Trie(nodes, words) && InOrder(nodes, words, queue, head) && head < |queue| && b < ALPHABET
    requires Reached(nodes, words, queue, head, b) && nodes[queue[head]].next[b] != 0
    requires InOrder(nodes, words, queue + [nodes[queue[head]].next[b]], head)
    ensures Reached(nodes, words, queue + [nodes[queue[head]].next[b]], head, b + 1)
  {
    var q := queue + [nodes[queue[head]].next[b]];
    assert q[..head] == queue[..head] && q[head] == queue[head];
  }

  /** Appending it keeps the frontier. */
  lemma FrontierPush(nodes: seq<LiteralNode>, words: seq<Text>, queue: seq<nat>, head: nat, b: nat)
    requires Trie(nodes, words) && Frontier(nodes, words, queue, head, b)
    requires head < |queue| && b < ALPHABET && nodes[queue[head]].next[b] != 0
    ensures nodes[queue[head]].next[b] !in queue
    ensures Frontier(nodes, words, queue + [nodes[queue[head]].next[b]], head, b + 1)
  {
    var child := nodes[queue[head]].next[b];
    var q := queue + [child];
    ChildIsNew(nodes, words, queue, head, b);
    ChildWord(nodes, words, queue[head], b);
    PushInOrder(nodes, words, queue, head, child);
    PushReached(nodes, words, queue, head, b);
    assert q[..head] == queue[..head] && q[head] == queue[head];
    forall i | 0 <= i < |q| ensures Accounted(nodes, words, q, head, b + 1, q[i]) {
      if i < |queue| {
        assert Accounted(nodes, words, queue, head, b, queue[i]);
      }
    }
  }

  /** All units done: the node at the head counts as handled. */
  lemma FrontierAdvance(nodes: seq<LiteralNode>, words: seq<Text>, queue: seq<nat>, head: nat)
    requires Trie(nodes, words) && Frontier(nodes, words, queue, head, ALPHABET)
    ensures Frontier(nodes, words, queue, head + 1, 0)
  {
    assert InOrder(nodes, words, queue, head + 1) by {
      if head + 1 < |queue| {
        assert |words[queue[head]]| <= |words[queue[head + 1]]|;
      }
    }
    forall c | 0 < c < |nodes| && |words[c]| > 0
      ensures ParentIn(words, queue[..head + 1], c)
          <==> ParentIn(words, queue[..head], c) || words[c][..|words[c]| - 1] == words[queue[head]]
    {
      ParentInSnoc(words, queue, head, c);
    }
    assert Reached(nodes, words, queue, head + 1, 0) by {
      forall c | 0 < c < |nodes| && |words[c]| > 0 && words[c][..|words[c]| - 1] == words[queue[head]]
        ensures c in queue
      {
        EdgeIffWord(nodes, words, queue[head], c);
      }
    }
    forall i | 0 <= i < |queue| ensures Accounted(nodes, words, queue, head + 1, 0, queue[i]) {
      assert Accounted(nodes, words, queue, head, ALPHABET, queue[i]);
    }
  }

  lemma ParentInSnoc(words: seq<Text>, queue: seq<nat>, head: nat, c: nat)
    requires head < |queue| && c < |words| && |words[c]| > 0
    requires forall i :: 0 <= i < |queue| ==> queue[i] < |words|
    ensures ParentIn(words, queue[..head + 1], c)
        <==> ParentIn(words, queue[..head], c) || words[c][..|words[c]| - 1] == words[queue[head]]
  {
    var front, more := queue[..head], queue[..head + 1];
    assert more == front + [queue[head]];
    if ParentIn(words, front, c) {
      var m :| 0 <= m < |front| && words[front[m]] == words[c][..|words[c]| - 1];
      assert more[m] == front[m];
    }
    if words[c][..|words[c]| - 1] == words[queue[head]] {
      assert more[head] == queue[head];
    }
    if ParentIn(words, more, c) {
      var m :| 0 <= m < |more| && words[more[m]] == words[c][..|words[c]| - 1];
      if m < head {
        assert front[m] == more[m];
      }
    }
  }

  // ---------------------------------------------------------------- the matcher

  /** When the whole queue was processed, every node has its failure link and its outputs. */
  lemma AllFinished(nodes: seq<LiteralNode>, words: seq<Text>, hints: set<Text>, queue: seq<nat>)
    requires Trie(nodes, words) && HintsOk(words, hints)
    requires Frontier(nodes, words, queue, |queue|, 0) && LinksUpTo(nodes, words, hints, queue)
    ensures forall s {:trigger Finished(nodes, words, hints, s)} ::
              0 <= s < |nodes| ==> Finished(nodes, words, hints, s)
  {
    forall s | 0 <= s < |nodes| ensures Finished(nodes, words, hints, s) {
      if s != 0 {
        AllEnqueued(nodes, words, queue, s);
      }
      assert Status(nodes, words, hints, queue, s);
    }
  }

  class LiteralMatcher {
    var nodes: seq<LiteralNode>
    ghost var words: seq<Text>
    ghost var hints: set<Text>

    /** The automaton is complete for the literals in `hints`. */
    ghost predicate Valid()
      reads this
    {
      && Trie(nodes, words)
      && HintsOk(words, hints)
      && forall s {:trigger Finished(nodes, words, hints, s)} ::
           0 <= s < |nodes| ==> Finished(nodes, words, hints, s)
    }

    /** Literals are in the trie, failure links and inherited outputs are not built yet. */
    ghost predicate Planted()
      reads this
    {
      && Trie(nodes, words)
      && HintsOk(words, hints)
      && forall s :: 0 <= s < |nodes| ==> nodes[s].fail == 0 && OwnOut(nodes, words, hints, s)
    }

    constructor (rules: seq<RuleHints>)
      ensures Valid()
      ensures forall h :: h in hints <==> h in RuleLiterals(rules) && Usable(h)
    {
      nodes := [BLANK_NODE];
      words := [[]];
      hints := {};
      new;
      var seen: set<Text> := {};
      for i := 0 to |rules|
        invariant Planted() && seen == RuleLiterals(rules[..i]) - {[]}
        invariant forall h :: h in hints <==> h in seen && Usable(h)
      {
        seen := AddAll(rules[i].patterns, seen);
        seen := AddAll(rules[i].excludes, seen);
        RuleLiteralsSnoc(rules, i);
      }
      assert rules[..|rules|] == rules;
      BuildFailures();
    }

    method AddAll(patterns: seq<PatternHint>, seen: set<Text>) returns (seen': set<Text>)
      requires Planted()
      requires forall h :: h in hints <==> h in seen && Usable(h)
      modifies this
      ensures Planted()
      ensures seen' == seen + (AllLiterals(patterns) - {[]})
      ensures forall h :: h in hints <==> h in seen' && Usable(h)
    {
      seen' := seen;
      for i := 0 to |patterns|
        invariant Planted() && seen' == seen + (AllLiterals(patterns[..i]) - {[]})
        invariant forall h :: h in hints <==> h in seen' && Usable(h)
      {
        var literals := patterns[i].literals;
        ghost var before := seen';
        for j := 0 to |literals|
          invariant Planted() && seen' == before + ((set h | h in literals[..j]) - {[]})
          invariant forall h :: h in hints <==> h in seen' && Usable(h)
        {
          seen' := Add(literals[j], seen');
          assert literals[..j + 1] == literals[..j] + [literals[j]];
        }
        assert literals[..|literals|] == literals;
        assert patterns[..i + 1] == patterns[..i] + [patterns[i]];
        assert AllLiterals(patterns[..i + 1]) == AllLiterals(patterns[..i]) + (set h | h in literals);
      }
      assert patterns[..|patterns|] == patterns;
    }

    /** Plant one literal. An empty literal and one met before are ignored; a literal with a unit
        outside the alphabet leaves a path in the trie but is never reported. */
    method Add(hint: Text, seen: set<Text>) returns (seen': set<Text>)
      requires Planted()
      requires forall h :: h in hints <==> h in seen && Usable(h)
      modifies this
      ensures Planted()
      ensures seen' == seen + ({hint} - {[]})
      ensures hints == old(hints) + (if Usable(hint) then {hint} else {})
    {
      seen' := seen;
      if hint == [] || hint in seen {
        return;
      }
      seen' := seen + {hint};
      var state: nat := 0;
      var i := 0;
      while i < |hint|
        invariant 0 <= i <= |hint| && Planted() && hints == old(hints)
        invariant state < |nodes| && words[state] == hint[..i]
        invariant IsAscii(hint[..i])
      {
        var b := hint[i];
        if b >= ALPHABET {
          return;
        }
        var next := nodes[state].next[b];
        assert Spells(nodes, words, state, b);
        if next == 0 {
          next := |nodes|;
          TrieGrow(nodes, words, state, b);
          LeafIsFresh(hints, words, words[state] + [b], nodes, state, b);
          nodes := nodes[state := nodes[state].(next := nodes[state].next[b := next])] + [BLANK_NODE];
          words := words + [words[state] + [b]];
        }
        assert hint[..i + 1] == hint[..i] + [b];
        assert Spells(nodes, words, state, b);
        state := next;
        i := i + 1;
      }
      assert hint[..|hint|] == hint;
      assert hint !in hints;
      PlantHint(nodes, words, hints, state);
      nodes := nodes[state := nodes[state].(out := nodes[state].out + [hint])];
      hints := hints + {hint};
    }

    /** Breadth-first construction of failure links and inherited outputs. */
    method BuildFailures()
      requires Planted()
      modifies this`nodes
      ensures Valid()
    {
      var queue := RootChildren();
      LinkAll(queue);
    }

    /** Link the children of the nodes in the queue, and queue them in turn. */
    method LinkAll(first: seq<nat>)
      requires Trie(nodes, words) && HintsOk(words, hints)
      requires Frontier(nodes, words, first, 0, 0)
      requires LinksUpTo(nodes, words, hints, first)
      modifies this`nodes
      ensures Valid()
    {
      var queue, head := first, 0;
      while head < |queue|
        invariant Trie(nodes, words)
        invariant Frontier(nodes, words, queue, head, 0)
        invariant LinksUpTo(nodes, words, hints, queue)
        decreases |words| - head
      {
        QueueBound(nodes, words, queue, head);
        queue := LinkChildren(queue, head);
        head := head + 1;
      }
      AllFinished(nodes, words, hints, queue);
    }

    method RootChildren() returns (queue: seq<nat>)
      requires Planted()
      ensures Frontier(nodes, words, queue, 0, 0)
      ensures LinksUpTo(nodes, words, hints, queue)
    {
      queue := [];
      for b := 0 to ALPHABET
        invariant Distinct(queue)
        invariant forall i :: 0 <= i < |queue| ==> 0 < queue[i] < |nodes| && |words[queue[i]]| == 1
        invariant forall i :: 0 <= i < |queue| ==> words[queue[i]][0] < b
        invariant forall x :: 0 <= x < b && nodes[0].next[x] != 0 ==> nodes[0].next[x] in queue
      {
        var child := nodes[0].next[b];
        if child != 0 {
          assert Spells(nodes, words, 0, b);
          queue := queue + [child];
        }
      }
      RootFrontier(nodes, words, queue);
      RootLinks(nodes, words, hints, queue);
    }

    /** Link and enqueue the children of the node at the head of the queue. */
    method LinkChildren(queue: seq<nat>, head: nat) returns (longer: seq<nat>)
      requires Trie(nodes, words) && HintsOk(words, hints)
      requires head < |queue| && Frontier(nodes, words, queue, head, 0)
      requires LinksUpTo(nodes, words, hints, queue)
      modifies this`nodes
      ensures Trie(nodes, words)
      ensures Frontier(nodes, words, longer, head + 1, 0)
      ensures LinksUpTo(nodes, words, hints, longer)
    {
      var state := queue[head];
      longer := queue;
      for b := 0 to ALPHABET
        invariant Trie(nodes, words)
        invariant head < |longer| && longer[head] == state
        invariant Frontier(nodes, words, longer, head, b)
        invariant LinksUpTo(nodes, words, hints, longer)
      {
        var child := nodes[state].next[b];
        if child == 0 {
          FrontierSkip(nodes, words, longer, head, b);
          continue;
        }
        ghost var before := nodes;
        ReadyToLink(nodes, words, hints, longer, head, b);
        LinkChild(state, b);
        LinkedStep(before, nodes, words, hints, longer, head, b);
        longer := longer + [child];
      }
      FrontierAdvance(nodes, words, longer, head);
    }

    /** Set the failure link of the node's child under b and inherit the outputs found there. */
    method LinkChild(state: nat, b: nat)
      requires Trie(nodes, words) && HintsOk(words, hints)
      requires 0 < state < |nodes| && b < ALPHABET && 0 < nodes[state].next[b] < |nodes|
      requires ShallowLinked(nodes, words, hints, state)
      requires nodes[nodes[state].next[b]].fail == 0
      requires OwnOut(nodes, words, hints, nodes[state].next[b])
      modifies this`nodes
      ensures Linked(old(nodes), nodes, words, hints, old(nodes[state].next[b]))
    {
      var child := nodes[state].next[b];
      ChaseStart(nodes, words, hints, state, b);
      ghost var t := words[state][1..];
      var fallback := Chase(t, nodes[state].fail, b);
      ghost var before := nodes;
      ChaseLands(nodes, words, hints, state, fallback, b);
      var next := nodes[fallback].next[b];
      if next != 0 && next != child {
        nodes := nodes[child := nodes[child].(fail := next)];
      }
      var inherited := nodes[nodes[child].fail].out;
      if |inherited| > 0 {
        nodes := nodes[child := nodes[child].(out := nodes[child].out + inherited)];
      }
      InheritedOutputs(before, words, hints, child, next, nodes[child].out);
    }

    /** Follow failure links until there is an edge for b, or the root is reached. */
    method Chase(ghost t: Text, start: nat, b: nat) returns (state: nat)
      requires Trie(nodes, words) && b < ALPHABET
      requires Chasing(nodes, words, t, start, b)
      requires ShallowLinked(nodes, words, hints, start)
      ensures Chasing(nodes, words, t, state, b)
      ensures state == 0 || nodes[state].next[b] != 0
    {
      state := start;
      while state != 0 && nodes[state].next[b] == 0
        invariant Chasing(nodes, words, t, state, b) && |words[state]| <= |words[start]|
        decreases |words[state]|
      {
        assert Finished(nodes, words, hints, state);
        ChaseStep(nodes, words, t, state, b);
        state := nodes[state].fail;
      }
    }

    /** Append the line to the entry of every registered literal that occurs in it, once each. */
    method FindLine(text: Text, hintLines: HintLines) returns (found: HintLines)
      requires Valid()
      ensures forall h :: Extended(found, hintLines, h, text, h in hints && Contains(Lower(text), h))
    {
      found := hintLines;
      var state: nat := 0;
      var seen: seq<Text> := [];
      NothingInEmpty(words, hints, text);
      for i := 0 to |text|
        invariant state < |nodes| && LongestSuffix(words, Lower(text[..i]), state)
        invariant SeenUpTo(hints, text, i, seen)
        invariant forall h :: Extended(found, hintLines, h, text, h in seen)
      {
        var b := LowerUnit(text[i]);
        LowerPrefix(text, i);
        if b >= ALPHABET {
          NonAsciiResets(nodes, words, Lower(text[..i]), b);
          SeenReset(words, hints, text, i, seen);
          state := 0;
          continue;
        }
        state := Follow(Lower(text[..i]), state, b);
        ghost var prior := seen;
        seen, found := Report(text, nodes[state].out, seen, hintLines, found);
        SeenStep(nodes, words, hints, text, i, state, prior, seen);
      }
      assert text[..|text|] == text;
    }

    /** The state after reading one more unit. */
    method Follow(ghost t: Text, start: nat, b: nat) returns (state: nat)
      requires Valid() && b < ALPHABET && LongestSuffix(words, t, start)
      ensures LongestSuffix(words, t + [b], state) && Finished(nodes, words, hints, state)
    {
      state := Chase(t, start, b);
      ChaseEnd(nodes, words, t, state, b);
      var next := nodes[state].next[b];
      if next != 0 {
        state := next;
      }
      assert Finished(nodes, words, hints, state);
    }

    /** Add the outputs of a node that were not seen on this line before. */
    method Report(text: Text, out: seq<Text>, seen: seq<Text>, ghost hintLines: HintLines, lines: HintLines)
      returns (seen': seq<Text>, found: HintLines)
      requires forall h :: Extended(lines, hintLines, h, text, h in seen)
      ensures forall h :: h in seen' <==> h in seen || h in out
      ensures forall h :: Extended(found, hintLines, h, text, h in seen')
    {
      seen', found := seen, lines;
      for k := 0 to |out|
        invariant forall h :: h in seen' <==> h in seen || h in out[..k]
        invariant forall h :: Extended(found, hintLines, h, text, h in seen')
      {
        var hint := out[k];
        assert out[..k + 1] == out[..k] + [hint];
        if hint in seen' {
          continue;
        }
        seen' := seen' + [hint];
        found := found[hint := LinesOf(found, hint) + [text]];
      }
      assert out[..|out|] == out;
    }
  }

  /** The literals seen so far are those that occur in the part of the line already read. */
  ghost predicate SeenUpTo(hints: set<Text>, text: Text, i: nat, seen: seq<Text>)
    requires i <= |text|
  {
    forall h :: h in seen <==> h in hints && Contains(Lower(text[..i]), h)
  }

  lemma NothingInEmpty(words: seq<Text>, hints: set<Text>, text: Text)
    requires |words| > 0 && words[0] == [] && HintsOk(words, hints)
    ensures SeenUpTo(hints, text, 0, [])
    ensures LongestSuffix(words, Lower(text[..0]), 0)
  {
    forall h | h in hints ensures !Contains(Lower(text[..0]), h) {
      assert Usable(h);
    }
  }

  lemma LowerPrefix(text: Text, i: nat)
    requires i < |text|
    ensures Lower(text[..i + 1]) == Lower(text[..i]) + [LowerUnit(text[i])]
  {
    assert text[..i + 1] == text[..i] + [text[i]];
    LowerAppend(text[..i], text[i]);
  }

  lemma SeenReset(words: seq<Text>, hints: set<Text>, text: Text, i: nat, seen: seq<Text>)
    requires i < |text| && HintsOk(words, hints) && SeenUpTo(hints, text, i, seen)
    requires LowerUnit(text[i]) >= ALPHABET
    ensures SeenUpTo(hints, text, i + 1, seen)
  {
    var t, b := Lower(text[..i]), LowerUnit(text[i]);
    LowerPrefix(text, i);
    forall h | h in hints ensures Contains(t + [b], h) <==> Contains(t, h) {
      ContainsAppend(t, b, h);
      assert Usable(h);
      if IsSuffix(h, t + [b]) {
        assert h[|h| - 1] == (t + [b])[|t|];
      }
    }
  }

  lemma SeenStep(nodes: seq<LiteralNode>, words: seq<Text>, hints: set<Text>, text: Text, i: nat, state: nat,
                 prior: seq<Text>, seen: seq<Text>)
    requires 0 < |nodes| == |words| && HintsOk(words, hints)
    requires i < |text| && SeenUpTo(hints, text, i, prior)
    requires LongestSuffix(words, Lower(text[..i]) + [LowerUnit(text[i])], state)
    requires OutOk(nodes, words, hints, state)
    requires forall h :: h in seen <==> h in prior || h in nodes[state].out
    ensures SeenUpTo(hints, text, i + 1, seen)
  {
    var t, b := Lower(text[..i]), LowerUnit(text[i]);
    LowerPrefix(text, i);
    forall h ensures h in seen <==> h in hints && Contains(t + [b], h) {
      ContainsAppend(t, b, h);
      OutputsAtState(nodes, words, hints, t + [b], state, h);
    }
  }

  lemma RuleLiteralsSnoc(rules: seq<RuleHints>, i: nat)
    requires i < |rules|
    ensures RuleLiterals(rules[..i + 1])
         == RuleLiterals(rules[..i]) + AllLiterals(rules[i].patterns) + AllLiterals(rules[i].excludes)
  {
    var front, more, last := rules[..i], rules[..i + 1], rules[i];
    assert more == front + [last];
    forall h ensures h in RuleLiterals(more)
                 <==> h in RuleLiterals(front) || h in AllLiterals(last.patterns) + AllLiterals(last.excludes) {
      if h in AllLiterals(last.patterns) + AllLiterals(last.excludes) {
        assert last in more;
      }
      if h in RuleLiterals(front) {
        var r :| r in front && h in AllLiterals(r.patterns) + AllLiterals(r.excludes);
        assert r in more;
      }
    }
  }

  /** The nodes no deeper than `state` have their failure links and outputs. */
  ghost predicate ShallowLinked(nodes: seq<LiteralNode>, words: seq<Text>, hints: set<Text>, state: nat)
    requires state < |nodes| == |words|
  {
    forall s {:trigger Finished(nodes, words, hints, s)} ::
      0 <= s < |nodes| && |words[s]| <= |words[state]| ==> Finished(nodes, words, hints, s)
  }

  /** Only the child changed, and it is finished. */
  ghost predicate Linked(nodes: seq<LiteralNode>, others: seq<LiteralNode>, words: seq<Text>, hints: set<Text>,
                         child: nat)
    requires child < |nodes| == |words|
  {
    && |others| == |nodes|
    && (forall s :: 0 <= s < |nodes| && s != child ==> others[s] == nodes[s])
    && others[child].next == nodes[child].next
    && Finished(others, words, hints, child)
  }

  /** Everything the child's failure link depends on is in place. */
  lemma ReadyToLink(nodes: seq<LiteralNode>, words: seq<Text>, hints: set<Text>, queue: seq<nat>,
                    head: nat, b: nat)
    requires Trie(nodes, words) && Frontier(nodes, words, queue, head, b) && head < |queue|
    requires LinksUpTo(nodes, words, hints, queue)
    requires b < ALPHABET && nodes[queue[head]].next[b] != 0
    ensures ShallowLinked(nodes, words, hints, queue[head])
    ensures var child := nodes[queue[head]].next[b];
            child < |nodes| && nodes[child].fail == 0 && OwnOut(nodes, words, hints, child)
  {
    assert Spells(nodes, words, queue[head], b);
    ChildIsNew(nodes, words, queue, head, b);
    assert Status(nodes, words, hints, queue, nodes[queue[head]].next[b]);
    ShallowIsLinked(nodes, words, hints, queue, head, b);
  }

  /** Linking a child and enqueueing it keeps what the pass maintains. */
  lemma LinkedStep(nodes: seq<LiteralNode>, others: seq<LiteralNode>, words: seq<Text>, hints: set<Text>,
                   queue: seq<nat>, head: nat, b: nat)
    requires Trie(nodes, words) && Frontier(nodes, words, queue, head, b) && head < |queue|
    requires LinksUpTo(nodes, words, hints, queue)
    requires b < ALPHABET && 0 < nodes[queue[head]].next[b] < |nodes|
    requires Linked(nodes, others, words, hints, nodes[queue[head]].next[b])
    ensures Trie(others, words)
    ensures Frontier(others, words, queue + [nodes[queue[head]].next[b]], head, b + 1)
    ensures LinksUpTo(others, words, hints, queue + [nodes[queue[head]].next[b]])
  {
    var child := nodes[queue[head]].next[b];
    FrontierPush(nodes, words, queue, head, b);
    assert SameEdges(nodes, others);
    TrieOfSameEdges(nodes, others, words);
    FrontierOfSameEdges(nodes, others, words, queue + [child], head, b + 1);
    LinksPush(nodes, others, words, hints, queue, child);
  }

  lemma RootLinks(nodes: seq<LiteralNode>, words: seq<Text>, hints: set<Text>, queue: seq<nat>)
    requires Trie(nodes, words) && HintsOk(words, hints)
    requires forall s :: 0 <= s < |nodes| ==> nodes[s].fail == 0 && OwnOut(nodes, words, hints, s)
    requires forall i :: 0 <= i < |queue| ==> 0 < queue[i] < |nodes| && |words[queue[i]]| == 1
    ensures LinksUpTo(nodes, words, hints, queue)
  {
    assert forall h :: h in hints ==> Usable(h);
    forall s | 0 <= s < |nodes| ensures Status(nodes, words, hints, queue, s) {
      if s in queue {
        assert words[s][1..] == [];
        forall h ensures h in nodes[s].out <==> h in hints && IsSuffix(h, words[s]) {
        }
      }
    }
  }

  lemma ShallowIsLinked(nodes: seq<LiteralNode>, words: seq<Text>, hints: set<Text>, queue: seq<nat>,
                        head: nat, limit: nat)
    requires Trie(nodes, words) && Frontier(nodes, words, queue, head, limit) && head < |queue|
    requires LinksUpTo(nodes, words, hints, queue)
    ensures ShallowLinked(nodes, words, hints, queue[head])
  {
    forall s | 0 <= s < |nodes| && |words[s]| <= |words[queue[head]]| ensures Finished(nodes, words, hints, s) {
      if s != 0 {
        ShallowEnqueued(nodes, words, queue, head, limit, s);
      }
      assert Status(nodes, words, hints, queue, s);
    }
  }

  lemma ChaseStart(nodes: seq<LiteralNode>, words: seq<Text>, hints: set<Text>, state: nat, b: nat)
    requires Trie(nodes, words) && 0 < state < |nodes| && b < ALPHABET
    requires ShallowLinked(nodes, words, hints, state)
    ensures |words[state]| > 0 && Chasing(nodes, words, words[state][1..], nodes[state].fail, b)
    ensures |words[nodes[state].fail]| < |words[state]|
  {
    assert Finished(nodes, words, hints, state);
    SuffixOfTail(words[nodes[state].fail], words[state]);
  }

  lemma ChaseLands(nodes: seq<LiteralNode>, words: seq<Text>, hints: set<Text>, state: nat, fallback: nat, b: nat)
    requires Trie(nodes, words) && 0 < state < |nodes| && |words[state]| > 0 && b < ALPHABET
    requires nodes[state].next[b] != 0
    requires ShallowLinked(nodes, words, hints, state)
    requires Chasing(nodes, words, words[state][1..], fallback, b)
    requires fallback == 0 || nodes[fallback].next[b] != 0
    ensures var child, next := nodes[state].next[b], nodes[fallback].next[b];
            && next < |nodes| && child < |nodes| && next != child && |words[child]| > 0
            && LongestSuffix(words, words[child][1..], next)
            && OutOk(nodes, words, hints, next)
  {
    var child, next := nodes[state].next[b], nodes[fallback].next[b];
    assert Spells(nodes, words, state, b);
    assert words[child][1..] == words[state][1..] + [b];
    ChaseEnd(nodes, words, words[state][1..], fallback, b);
    assert |words[next]| <= |words[state]|;
    assert Finished(nodes, words, hints, next);
  }

  /** Marking the node of a new literal. */
  lemma PlantHint(nodes: seq<LiteralNode>, words: seq<Text>, hints: set<Text>, state: nat)
    requires Trie(nodes, words) && state < |nodes| && words[state] !in hints
    requires forall s :: 0 <= s < |nodes| ==> nodes[s].fail == 0 && OwnOut(nodes, words, hints, s)
    ensures var marked := nodes[state := nodes[state].(out := nodes[state].out + [words[state]])];
            && Trie(marked, words)
            && forall s :: 0 <= s < |nodes| ==>
                 marked[s].fail == 0 && OwnOut(marked, words, hints + {words[state]}, s)
  {
    var marked := nodes[state := nodes[state].(out := nodes[state].out + [words[state]])];
    TrieOfSameEdges(nodes, marked, words);
    forall s | 0 <= s < |nodes| ensures OwnOut(marked, words, hints + {words[state]}, s) {
      if words[s] == words[state] {
        SameWord(nodes, words, s, state);
      }
      assert OwnOut(nodes, words, hints, s);
    }
  }

  /** A word that is not in the trie is not a planted literal. */
  lemma LeafIsFresh(hints: set<Text>, words: seq<Text>, w: Text, nodes: seq<LiteralNode>, s: nat, b: nat)
    requires Trie(nodes, words) && HintsOk(words, hints)
    requires s < |nodes| && b < ALPHABET && nodes[s].next[b] == 0 && w == words[s] + [b]
    ensures w !in words && w !in hints
    ensures HintsOk(words + [w], hints)
  {
    if w in words {
      var q :| 0 <= q < |words| && words[q] == w;
      assert words[q][..|words[q]| - 1] == words[s];
      EdgeIffWord(nodes, words, s, q);
    }
  }

  /** The root's children are the initial frontier. */
  lemma RootFrontier(nodes: seq<LiteralNode>, words: seq<Text>, queue: seq<nat>)
    requires Trie(nodes, words) && Distinct(queue)
    requires forall i :: 0 <= i < |queue| ==> 0 < queue[i] < |nodes| && |words[queue[i]]| == 1
    requires forall x :: 0 <= x < ALPHABET && nodes[0].next[x] != 0 ==> nodes[0].next[x] in queue
    ensures Frontier(nodes, words, queue, 0, 0)
  {
    forall c | 0 < c < |nodes| && |words[c]| == 1 ensures c in queue {
      EdgeIffWord(nodes, words, 0, c);
    }
  }

  lemma FrontierOfSameEdges(nodes: seq<LiteralNode>, others: seq<LiteralNode>, words: seq<Text>,
                            queue: seq<nat>, head: nat, limit: nat)
    requires Trie(nodes, words) && Trie(others, words) && SameEdges(nodes, others)
    requires Frontier(nodes, words, queue, head, limit)
    ensures Frontier(others, words, queue, head, limit)
  {
  }

  /** The root and every enqueued node are finished; the others are as planted. */
  ghost predicate LinksUpTo(nodes: seq<LiteralNode>, words: seq<Text>, hints: set<Text>, queue: seq<nat>)
    requires 0 < |nodes| == |words|
  {
    forall s {:trigger Status(nodes, words, hints, queue, s)} ::
      0 <= s < |nodes| ==> Status(nodes, words, hints, queue, s)
  }

  ghost predicate Status(nodes: seq<LiteralNode>, words: seq<Text>, hints: set<Text>, queue: seq<nat>, s: nat)
    requires s < |nodes| == |words|
  {
    if s == 0 || s in queue then Finished(nodes, words, hints, s)
    else nodes[s].fail == 0 && OwnOut(nodes, words, hints, s)
  }

  lemma LinksPush(nodes: seq<LiteralNode>, others: seq<LiteralNode>, words: seq<Text>, hints: set<Text>,
                  queue: seq<nat>, child: nat)
    requires 0 < |nodes| == |words| && 0 < child < |nodes|
    requires LinksUpTo(nodes, words, hints, queue)
    requires Linked(nodes, others, words, hints, child)
    ensures LinksUpTo(others, words, hints, queue + [child])
  {
    forall s | 0 <= s < |others| ensures Status(others, words, hints, queue + [child], s) {
      assert Status(nodes, words, hints, queue, s);
      if s != child {
        assert s in queue + [child] <==> s in queue;
      }
    }
  }
}
