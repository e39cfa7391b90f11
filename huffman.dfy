/** HuffmanNode and HuffmanTree of huffman.py: building the tree by repeatedly
    joining the two lightest trees of a min-heap, and reading the codes off
    the finished tree.

    The heap is a list of trees; heappop takes the first tree of least
    frequency in it. */
module Huffman {
  import opened Basics

  /** HuffmanNode.  build only ever creates leaves HuffmanNode(char, freq)
      and inner nodes HuffmanNode(None, freq1 + freq2, left, right) with both
      children, so a node is one of these two shapes and is_leaf is the test
      Leaf?. */
  datatype Node = Leaf(ch: string, freq: int) | Join(freq: int, left: Node, right: Node)

  /** The characters at the leaves of n, with multiplicity. */
  function Chars(n: Node): multiset<string> {
    match n
    case Leaf(c, _) => multiset{c}
    case Join(_, l, r) => Chars(l) + Chars(r)
  }

  /** Every inner node carries the sum of its children's frequencies, and its
      left child is no heavier than its right one. */
  ghost predicate WellMerged(n: Node) {
    match n
    case Leaf(_, _) => true
    case Join(f, l, r) => f == l.freq + r.freq && l.freq <= r.freq && WellMerged(l) && WellMerged(r)
  }

  /** Every character occurs at one leaf at most. */
  ghost predicate UniqueChars(n: Node) {
    forall c :: Chars(n)[c] <= 1
  }

  // ---------------------------------------------------------------------
  // Sums over the heap
  // ---------------------------------------------------------------------

  /** The sum of the frequencies of the trees in q. */
  function TotalFreq(q: seq<Node>): int {
    if |q| == 0 then 0 else q[0].freq + TotalFreq(q[1..])
  }

  /** The characters of all trees in q. */
  function AllChars(q: seq<Node>): multiset<string> {
    if |q| == 0 then multiset{} else Chars(q[0]) + AllChars(q[1..])
  }

  lemma ConcatEmpty<T>(a: seq<T>, b: seq<T>)
    requires |a| == 0
    ensures a + b == b
  {
  }

  lemma ConcatTail<T>(a: seq<T>, b: seq<T>)
    requires |a| > 0
    ensures (a + b)[0] == a[0] && (a + b)[1..] == a[1..] + b
  {
  }

  lemma SplitAt<T>(q: seq<T>, i: nat)
    requires i < |q|
    ensures q == q[..i] + ([q[i]] + q[i + 1..])
  {
  }

  lemma {:induction false} TotalsConcat(a: seq<Node>, b: seq<Node>)
    ensures TotalFreq(a + b) == TotalFreq(a) + TotalFreq(b)
    ensures AllChars(a + b) == AllChars(a) + AllChars(b)
  {
    if |a| == 0 {
      ConcatEmpty(a, b);
    } else {
      ConcatTail(a, b);
      TotalsConcat(a[1..], b);
    }
  }

  /** Taking the tree at i out of the heap. */
  function Remove<T>(q: seq<T>, i: nat): (r: seq<T>)
    requires i < |q|
    ensures |r| == |q| - 1
  {
    q[..i] + q[i + 1..]
  }

  lemma TotalsRemove(q: seq<Node>, i: nat)
    requires i < |q|
    ensures TotalFreq(q) == q[i].freq + TotalFreq(Remove(q, i))
    ensures AllChars(q) == Chars(q[i]) + AllChars(Remove(q, i))
  {
    SplitAt(q, i);
    TotalsConcat(q[..i], [q[i]] + q[i + 1..]);
    TotalsConcat(q[..i], q[i + 1..]);
    ConcatTail([q[i]], q[i + 1..]);
    ConcatEmpty([q[i]][1..], q[i + 1..]);
  }

  // ---------------------------------------------------------------------
  // The merge loop of build (huffman.py:38-43)
  // ---------------------------------------------------------------------

  /** The tree at i is the first one of least frequency in q. */
  ghost predicate FirstLeast(q: seq<Node>, i: nat)
    requires i < |q|
  {
    (forall j :: 0 <= j < |q| ==> q[i].freq <= q[j].freq) &&
    (forall j :: 0 <= j < i ==> q[j].freq > q[i].freq)
  }

  /** heappop: the first tree of least frequency in the heap. */
  function MinIndex(q: seq<Node>): (i: nat)
    requires |q| > 0
    ensures i < |q|
  {
    if |q| == 1 then 0
    else
      var k := MinIndex(q[1..]) + 1;
      if q[0].freq <= q[k].freq then 0 else k
  }

  lemma {:induction false} MinIndexLeast(q: seq<Node>)
    requires |q| > 0
    ensures FirstLeast(q, MinIndex(q))
  {
    if |q| > 1 {
      MinIndexLeast(q[1..]);
      var k := MinIndex(q[1..]) + 1;
      assert forall j :: 1 <= j < |q| ==> q[j] == q[1..][j - 1];
    }
  }

  /** The first least tree is the only one: MinIndex is determined by it. */
  lemma MinIndexIs(q: seq<Node>, i: nat)
    requires i < |q| && FirstLeast(q, i)
    ensures MinIndex(q) == i
  {
    MinIndexLeast(q);
  }

  /** One turn of `while len(pq) > 1`: pop the two least trees and push
      their join, the first one popped on the left. */
  function MergeStep(q: seq<Node>): (r: seq<Node>)
    requires |q| >= 2
    ensures |r| == |q| - 1
  {
    var i := MinIndex(q);
    var left := q[i];
    var q1 := Remove(q, i);
    var k := MinIndex(q1);
    Push(Remove(q1, k), left, q1[k])
  }

  /** heappush of the join of left and right. */
  function Push(q: seq<Node>, left: Node, right: Node): (r: seq<Node>)
    ensures |r| == |q| + 1
  {
    q + [Join(left.freq + right.freq, left, right)]
  }

  /** The tree the loop leaves behind: pq[0] once one tree is left. */
  function MergeAll(q: seq<Node>): Node
    requires |q| > 0
    decreases |q|
  {
    if |q| == 1 then q[0] else MergeAll(MergeStep(q))
  }

  /** Taking the tree at i out of q leaves the rest of q's trees. */
  lemma RemoveMultiset<T>(q: seq<T>, i: nat)
    requires i < |q|
    ensures multiset(q) == multiset(Remove(q, i)) + multiset{q[i]}
  {
    SplitAt(q, i);
  }

  /** Taking two trees out, one after the other. */
  lemma RemoveTwice<T>(q: seq<T>, i: nat, k: nat)
    requires i < |q| && k < |q| - 1
    ensures multiset(q) == multiset(Remove(Remove(q, i), k)) + multiset{q[i], Remove(q, i)[k]}
  {
    RemoveMultiset(q, i);
    RemoveMultiset(Remove(q, i), k);
  }

  /** A merge step pops the first least tree of the heap and then the first
      least tree of the rest, joins them with the first one on the left, and
      leaves the other trees in the heap. */
  lemma MergeStepGreedy(q: seq<Node>)
    requires |q| >= 2
    ensures var i := MinIndex(q); var q1 := Remove(q, i); var k := MinIndex(q1);
      MergeStep(q) == Push(Remove(q1, k), q[i], q1[k]) &&
      FirstLeast(q, i) && FirstLeast(q1, k) && q[i].freq <= q1[k].freq &&
      multiset(q) == multiset(Remove(q1, k)) + multiset{q[i], q1[k]}
  {
    var i := MinIndex(q);
    var q1 := Remove(q, i);
    var k := MinIndex(q1);
    MinIndexLeast(q);
    MinIndexLeast(q1);
    RemoveTwice(q, i, k);
  }

  /** Every tree of q is well merged. */
  ghost predicate AllWellMerged(q: seq<Node>) {
    forall i :: 0 <= i < |q| ==> WellMerged(q[i])
  }

  /** A merge step keeps the total frequency and the characters of the heap. */
  lemma MergeStepTotals(q: seq<Node>)
    requires |q| >= 2
    ensures TotalFreq(MergeStep(q)) == TotalFreq(q)
    ensures AllChars(MergeStep(q)) == AllChars(q)
  {
    var i := MinIndex(q);
    var q1 := Remove(q, i);
    var k := MinIndex(q1);
    TotalsRemove(q, i);
    TotalsRemove(q1, k);
    JoinTotals(Remove(q1, k), q[i], q1[k]);
  }

  /** Pushing the join of a and b adds what a and b carry. */
  lemma JoinTotals(q: seq<Node>, a: Node, b: Node)
    ensures TotalFreq(Push(q, a, b)) == TotalFreq(q) + a.freq + b.freq
    ensures AllChars(Push(q, a, b)) == AllChars(q) + Chars(a) + Chars(b)
  {
    var j := Join(a.freq + b.freq, a, b);
    TotalsConcat(q, [j]);
    TotalsSingle(j);
  }

  lemma TotalsSingle(j: Node)
    ensures TotalFreq([j]) == j.freq && AllChars([j]) == Chars(j)
  {
    assert [j][1..] == [];
  }

  lemma RemoveWellMerged(q: seq<Node>, i: nat)
    requires i < |q| && AllWellMerged(q)
    ensures AllWellMerged(Remove(q, i))
  {
    var r := Remove(q, i);
    forall j | 0 <= j < |r| ensures WellMerged(r[j]) {
      if j < i { assert r[j] == q[j]; } else { assert r[j] == q[j + 1]; }
    }
  }

  /** A merge step keeps every tree of the heap well merged. */
  lemma MergeStepShape(q: seq<Node>)
    requires |q| >= 2 && AllWellMerged(q)
    ensures AllWellMerged(MergeStep(q))
  {
    var i := MinIndex(q);
    var q1 := Remove(q, i);
    var k := MinIndex(q1);
    var j := Join(q[i].freq + q1[k].freq, q[i], q1[k]);
    RemoveWellMerged(q, i);
    RemoveWellMerged(q1, k);
    MinIndexLeast(q);
    MinIndexLeast(q1);
    var r := MergeStep(q);
    assert WellMerged(j);
    forall x | 0 <= x < |r| ensures WellMerged(r[x]) {
      if x == |r| - 1 {
        assert r[x] == j;
      } else {
        assert r[x] == Remove(q1, k)[x];
      }
    }
  }

  /** The root carries the total frequency and exactly the characters of the
      heap, and every inner node is well merged. */
  lemma {:induction false} MergeAllKeeps(q: seq<Node>)
    requires |q| > 0
    ensures MergeAll(q).freq == TotalFreq(q)
    ensures Chars(MergeAll(q)) == AllChars(q)
    ensures AllWellMerged(q) ==> WellMerged(MergeAll(q))
    decreases |q|
  {
    if |q| == 1 {
      assert q[1..] == [];
    } else {
      MergeStepTotals(q);
      if AllWellMerged(q) {
        MergeStepShape(q);
      }
      MergeAllKeeps(MergeStep(q));
    }
  }

  // ---------------------------------------------------------------------
  // The frequency table
  // ---------------------------------------------------------------------

  /** A dict's keys are distinct. */
  ghost predicate DistinctKeys(table: seq<(string, int)>) {
    forall i, j :: 0 <= i < j < |table| ==> table[i].0 != table[j].0
  }

  /** The keys of the table, with multiplicity. */
  function Keys(table: seq<(string, int)>): multiset<string> {
    if |table| == 0 then multiset{} else Keys(table[..|table| - 1]) + multiset{table[|table| - 1].0}
  }

  function SumFreqs(table: seq<(string, int)>): int {
    if |table| == 0 then 0 else SumFreqs(table[..|table| - 1]) + table[|table| - 1].1
  }

  /** The heap after `for char, freq in freq_table.items()` (huffman.py:34-35). */
  function TableLeaves(table: seq<(string, int)>): (r: seq<Node>)
    ensures |r| == |table|
  {
    if |table| == 0 then []
    else TableLeaves(table[..|table| - 1]) + [Leaf(table[|table| - 1].0, table[|table| - 1].1)]
  }

  /** The leaves of the table carry its frequencies and its keys. */
  lemma {:induction false} TableTotals(table: seq<(string, int)>)
    ensures TotalFreq(TableLeaves(table)) == SumFreqs(table)
    ensures AllChars(TableLeaves(table)) == Keys(table)
    ensures AllWellMerged(TableLeaves(table))
  {
    if |table| > 0 {
      var init := table[..|table| - 1];
      var leaf := Leaf(table[|table| - 1].0, table[|table| - 1].1);
      TableTotals(init);
      TotalsConcat(TableLeaves(init), [leaf]);
      assert [leaf][1..] == [];
    }
  }

  /** Distinct keys occur once each. */
  lemma {:induction false} KeysOnce(table: seq<(string, int)>)
    requires DistinctKeys(table)
    ensures forall c :: Keys(table)[c] <= 1
  {
    if |table| > 0 {
      var init := table[..|table| - 1];
      var last := table[|table| - 1].0;
      KeysOnce(init);
      KeysIn(init, last);
    }
  }

  lemma {:induction false} KeysIn(table: seq<(string, int)>, c: string)
    requires forall i :: 0 <= i < |table| ==> table[i].0 != c
    ensures c !in Keys(table)
  {
    if |table| > 0 {
      KeysIn(table[..|table| - 1], c);
    }
  }

  // ---------------------------------------------------------------------
  // The codes of a tree (traverse, huffman.py:51-57)
  // ---------------------------------------------------------------------

  /** The dictionary entries traverse(n, prefix) writes, in the order it
      writes them: a later entry for the same character wins. */
  function Codes(n: Node, prefix: string): map<string, string> {
    match n
    case Leaf(c, _) => map[c := prefix]
    case Join(_, l, r) => Codes(l, prefix + "0") + Codes(r, prefix + "1")
  }

  /** s consists of the characters '0' and '1'. */
  predicate Binary(s: string) {
    forall i :: 0 <= i < |s| ==> s[i] == '0' || s[i] == '1'
  }

  /** traverse writes one entry per character of the tree. */
  lemma {:induction false} CodesKeys(n: Node, prefix: string)
    ensures Codes(n, prefix).Keys == set c | c in Chars(n)
  {
    match n
    case Leaf(c, _) =>
    case Join(_, l, r) =>
      CodesKeys(l, prefix + "0");
      CodesKeys(r, prefix + "1");
  }

  /** Every code in m is p followed by a binary string. */
  ghost predicate Below(m: map<string, string>, p: string) {
    forall k :: k in m ==> |m[k]| >= |p| && m[k][..|p|] == p && Binary(m[k][|p|..])
  }

  /** s extends p + [d] for a binary digit d, so it extends p. */
  lemma StepBack(s: string, p: string, d: char)
    requires d == '0' || d == '1'
    requires |s| >= |p| + 1 && s[..|p| + 1] == p + [d] && Binary(s[|p| + 1..])
    ensures |s| >= |p| && s[..|p|] == p && Binary(s[|p|..])
  {
    assert s[..|p|] == s[..|p| + 1][..|p|];
    assert s[|p|..] == [d] + s[|p| + 1..];
  }

  lemma BelowUnion(L: map<string, string>, R: map<string, string>, p: string)
    requires Below(L, p + "0") && Below(R, p + "1")
    ensures Below(L + R, p)
  {
    forall k | k in L + R ensures |(L + R)[k]| >= |p| && (L + R)[k][..|p|] == p && Binary((L + R)[k][|p|..]) {
      if k in R {
        StepBack(R[k], p, '1');
      } else {
        StepBack(L[k], p, '0');
      }
    }
  }

  /** Each code traverse writes is the prefix followed by a binary string. */
  lemma {:induction false} CodesBelow(n: Node, prefix: string)
    ensures Below(Codes(n, prefix), prefix)
  {
    match n
    case Leaf(c, _) =>
      assert prefix[..|prefix|] == prefix;
    case Join(_, l, r) =>
      CodesBelow(l, prefix + "0");
      CodesBelow(r, prefix + "1");
      BelowUnion(Codes(l, prefix + "0"), Codes(r, prefix + "1"), prefix);
  }

  predicate IsPrefix(s: string, t: string) {
    |s| <= |t| && t[..|s|] == s
  }

  /** No code in m is a prefix of the code of another character. */
  ghost predicate PrefixFree(m: map<string, string>) {
    forall k1, k2 :: k1 in m && k2 in m && k1 != k2 ==> !IsPrefix(m[k1], m[k2])
  }

  /** Codes below the two children of a node differ right after its prefix. */
  lemma Apart(s: string, t: string, p: string)
    requires |s| > |p| && |t| > |p|
    requires s[..|p| + 1] == p + "0" && t[..|p| + 1] == p + "1"
    ensures !IsPrefix(s, t) && !IsPrefix(t, s)
  {
    assert s[|p|] == s[..|p| + 1][|p|] && t[|p|] == t[..|p| + 1][|p|];
    assert |s| <= |t| ==> t[..|s|][|p|] == t[|p|];
    assert |t| <= |s| ==> s[..|t|][|p|] == s[|p|];
  }

  /** The codes of two subtrees with disjoint characters, below the two
      branches of a node, together stay prefix-free. */
  lemma UnionPrefixFree(L: map<string, string>, R: map<string, string>, p: string)
    requires PrefixFree(L) && PrefixFree(R) && L.Keys !! R.Keys
    requires Below(L, p + "0") && Below(R, p + "1")
    ensures PrefixFree(L + R)
  {
    var m := L + R;
    forall k1, k2 | k1 in m && k2 in m && k1 != k2 ensures !IsPrefix(m[k1], m[k2]) {
      if k1 in L && k2 in R {
        Apart(L[k1], R[k2], p);
      } else if k1 in R && k2 in L {
        Apart(L[k2], R[k1], p);
      }
    }
  }

  /** A node with every character once has children with every character
      once and no character in common. */
  lemma UniqueChildren(n: Node)
    requires n.Join? && UniqueChars(n)
    ensures UniqueChars(n.left) && UniqueChars(n.right)
    ensures forall c :: c in Chars(n.left) ==> c !in Chars(n.right)
  {
    forall c ensures Chars(n.left)[c] + Chars(n.right)[c] <= 1 {
      assert Chars(n)[c] == Chars(n.left)[c] + Chars(n.right)[c];
    }
  }

  /** When every character occurs once, no code is a prefix of another. */
  lemma {:induction false} CodesPrefixFree(n: Node, prefix: string)
    requires UniqueChars(n)
    ensures PrefixFree(Codes(n, prefix))
  {
    match n
    case Leaf(c, _) =>
    case Join(_, l, r) =>
      var p0, p1 := prefix + "0", prefix + "1";
      UniqueChildren(n);
      CodesPrefixFree(l, p0);
      CodesPrefixFree(r, p1);
      CodesKeys(l, p0);
      CodesKeys(r, p1);
      CodesBelow(l, p0);
      CodesBelow(r, p1);
      UnionPrefixFree(Codes(l, p0), Codes(r, p1), prefix);
  }

  // ---------------------------------------------------------------------
  // HuffmanTree
  // ---------------------------------------------------------------------

  class HuffmanTree {
    /** self.freq_table, in the dict's iteration order. */
    var freqTable: seq<(string, int)>
    /** self.root; None until build succeeds. */
    var root: Option<Node>
    /** self.codes: written by generate_codes, never cleared. */
    var codes: map<string, string>

    ghost predicate Valid()
      reads this
    {
      DistinctKeys(freqTable)
    }

    /** HuffmanTree(freq_table) (huffman.py:24-27). */
    constructor (table: seq<(string, int)>)
      requires DistinctKeys(table)
      ensures Valid()
      ensures freqTable == table && root == None && codes == map[]
    {
      freqTable, root, codes := table, None, map[];
    }

    /** build (huffman.py:30-46).  An empty table leaves the heap empty and
        pq[0] raises IndexError before root is assigned; otherwise the root
        is what the merge loop leaves of the table's leaves. */
    method Build() returns (r: Outcome)
      requires Valid()
      modifies this
      ensures Valid() && freqTable == old(freqTable) && codes == old(codes)
      ensures |freqTable| == 0 ==> r == Fail(IndexError) && root == old(root)
      ensures |freqTable| > 0 ==> r == Pass && root == Some(MergeAll(TableLeaves(freqTable)))
    {
      var pq: seq<Node> := [];
      for i := 0 to |freqTable|
        invariant pq == TableLeaves(freqTable[..i])
      {
        assert freqTable[..i + 1][..i] == freqTable[..i];
        pq := pq + [Leaf(freqTable[i].0, freqTable[i].1)];
      }
      assert freqTable[..|freqTable|] == freqTable;
      while |pq| > 1
        invariant |pq| == 0 <==> |freqTable| == 0
        invariant |pq| > 0 ==> MergeAll(pq) == MergeAll(TableLeaves(freqTable))
        decreases |pq|
      {
        ghost var q := pq;
        var i := MinIndex(pq);
        var left := pq[i];
        pq := Remove(pq, i);
        var k := MinIndex(pq);
        var right := pq[k];
        pq := Remove(pq, k) + [Join(left.freq + right.freq, left, right)];
        assert pq == MergeStep(q);
      }
      if |pq| == 0 {
        return Fail(IndexError);
      }
      root := Some(pq[0]);
      r := Pass;
    }

    /** traverse (huffman.py:51-57): a leaf records its code, an inner node
        passes prefix + "0" to its left and prefix + "1" to its right. */
    method Traverse(node: Node, prefix: string)
      modifies this
      ensures codes == old(codes) + Codes(node, prefix)
      ensures freqTable == old(freqTable) && root == old(root)
      decreases node
    {
      if node.Leaf? {
        codes := codes[node.ch := prefix];
        return;
      }
      ghost var c0 := codes;
      Traverse(node.left, prefix + "0");
      Traverse(node.right, prefix + "1");
      assert codes == c0 + (Codes(node.left, prefix + "0") + Codes(node.right, prefix + "1"));
    }

    /** generate_codes (huffman.py:49-60): traverse(self.root, "") and return
        self.codes.  Before a successful build root is None, and traverse
        fails on None.is_leaf() with AttributeError. */
    method GenerateCodes() returns (r: Result<map<string, string>>)
      modifies this
      ensures freqTable == old(freqTable) && root == old(root)
      ensures root.None? ==> r == Err(AttributeError) && codes == old(codes)
      ensures root.Some? ==> codes == old(codes) + Codes(root.value, "") && r == Ok(codes)
    {
      if root.None? {
        return Err(AttributeError);
      }
      Traverse(root.value, "");
      r := Ok(codes);
    }
  }

  // ---------------------------------------------------------------------
  // What the codes of a built tree are
  // ---------------------------------------------------------------------

  /** The tree build makes from a non-empty table: its root carries the
      sum of the table's frequencies, its leaves are the table's characters,
      each once when the keys are distinct, and every inner node is the sum
      of its children with the lighter child on the left. */
  lemma BuiltTree(table: seq<(string, int)>)
    requires |table| > 0
    ensures var t := MergeAll(TableLeaves(table));
      t.freq == SumFreqs(table) && Chars(t) == Keys(table) && WellMerged(t) &&
      (DistinctKeys(table) ==> UniqueChars(t))
  {
    TableTotals(table);
    MergeAllKeeps(TableLeaves(table));
    if DistinctKeys(table) {
      KeysOnce(table);
    }
  }

  /** For a table with distinct characters, the codes of the built tree give
      every character of the table a binary code, and no code is a prefix of
      another. */
  lemma BuiltCodes(table: seq<(string, int)>)
    requires |table| > 0 && DistinctKeys(table)
    ensures var m := Codes(MergeAll(TableLeaves(table)), "");
      m.Keys == (set c | c in Keys(table)) && (forall k :: k in m ==> Binary(m[k])) && PrefixFree(m)
  {
    var t := MergeAll(TableLeaves(table));
    BuiltTree(table);
    CodesKeys(t, "");
    CodesBelow(t, "");
    forall k | k in Codes(t, "") ensures Binary(Codes(t, "")[k]) {
      assert Codes(t, "")[k][0..] == Codes(t, "")[k];
    }
    CodesPrefixFree(t, "");
  }

  /** A one-entry table: no merge happens, the root is the leaf and its
      code is the empty string. */
  lemma OneEntry(table: seq<(string, int)>)
    requires |table| == 1
    ensures MergeAll(TableLeaves(table)) == Leaf(table[0].0, table[0].1)
    ensures Codes(MergeAll(TableLeaves(table)), "") == map[table[0].0 := ""]
  {
    assert table[..0] == [];
  }
}
