/** The example at the end of huffman.py (lines 163-175): six characters,
    build, generate_codes. */
module HuffmanSample {
  import opened Basics
  import opened Huffman

  /** The frequency table, in the dict's insertion order. */
  function SampleTable(): seq<(string, int)> {
    [("A", 5), ("B", 9), ("C", 12), ("D", 13), ("E", 16), ("F", 45)]
  }

  function AB(): Node { Join(14, Leaf("A", 5), Leaf("B", 9)) }
  function CD(): Node { Join(25, Leaf("C", 12), Leaf("D", 13)) }
  function ABE(): Node { Join(30, AB(), Leaf("E", 16)) }

  /** The tree the merges build: 5+9, 12+13, 14+16, 25+30 and 45+55. */
  function SampleTree(): Node {
    Join(100, Leaf("F", 45), Join(55, CD(), ABE()))
  }

  /** The heap before each turn of the merge loop. */
  function Heap(n: nat): seq<Node>
    requires n < 5
  {
    if n == 0 then [Leaf("A", 5), Leaf("B", 9), Leaf("C", 12), Leaf("D", 13), Leaf("E", 16), Leaf("F", 45)]
    else if n == 1 then [Leaf("C", 12), Leaf("D", 13), Leaf("E", 16), Leaf("F", 45), AB()]
    else if n == 2 then [Leaf("E", 16), Leaf("F", 45), AB(), CD()]
    else if n == 3 then [Leaf("F", 45), CD(), ABE()]
    else [Leaf("F", 45), Join(55, CD(), ABE())]
  }

  lemma Leaves()
    ensures TableLeaves(SampleTable()) == Heap(0)
  {
    var t := SampleTable();
    var a, b, c, d, e, f := Leaf("A", 5), Leaf("B", 9), Leaf("C", 12), Leaf("D", 13), Leaf("E", 16), Leaf("F", 45);
    assert t[..1][..0] == [];
    assert TableLeaves(t[..1]) == [a];
    assert t[..2][..1] == t[..1];
    assert TableLeaves(t[..2]) == [a, b];
    assert t[..3][..2] == t[..2];
    assert TableLeaves(t[..3]) == [a, b, c];
    assert t[..4][..3] == t[..3];
    assert TableLeaves(t[..4]) == [a, b, c, d];
    assert t[..5][..4] == t[..4];
    assert TableLeaves(t[..5]) == [a, b, c, d, e];
    assert t[..6][..5] == t[..5] && t[..6] == t;
  }

  lemma FirstPop()
    ensures MinIndex(Heap(0)) == 0
    ensures Remove(Heap(0), 0) == [Leaf("B", 9), Leaf("C", 12), Leaf("D", 13), Leaf("E", 16), Leaf("F", 45)]
  {
    MinIndexIs(Heap(0), 0);
  }

  lemma SecondPop(q1: seq<Node>)
    requires q1 == [Leaf("B", 9), Leaf("C", 12), Leaf("D", 13), Leaf("E", 16), Leaf("F", 45)]
    ensures MinIndex(q1) == 0
    ensures Push(Remove(q1, 0), Leaf("A", 5), q1[0]) == Heap(1)
  {
    MinIndexIs(q1, 0);
  }

  lemma Turn0()
    ensures MergeStep(Heap(0)) == Heap(1)
  {
    FirstPop();
    SecondPop(Remove(Heap(0), 0));
  }

  lemma Turn1()
    ensures MergeStep(Heap(1)) == Heap(2)
  {
    ThirdPop();
    FourthPop(Remove(Heap(1), 0));
  }

  lemma ThirdPop()
    ensures MinIndex(Heap(1)) == 0
    ensures Remove(Heap(1), 0) == [Leaf("D", 13), Leaf("E", 16), Leaf("F", 45), AB()]
  {
    MinIndexIs(Heap(1), 0);
  }

  lemma FourthPop(q1: seq<Node>)
    requires q1 == [Leaf("D", 13), Leaf("E", 16), Leaf("F", 45), AB()]
    ensures MinIndex(q1) == 0
    ensures Push(Remove(q1, 0), Leaf("C", 12), q1[0]) == Heap(2)
  {
    MinIndexIs(q1, 0);
  }

  lemma Turn2()
    ensures MergeStep(Heap(2)) == Heap(3)
  {
    PopOf(Heap(2), 2, [Leaf("E", 16), Leaf("F", 45), CD()]);
    JoinOf([Leaf("E", 16), Leaf("F", 45), CD()], 0, AB(), Heap(3));
  }

  lemma Turn3()
    ensures MergeStep(Heap(3)) == Heap(4)
  {
    PopOf(Heap(3), 1, [Leaf("F", 45), ABE()]);
    JoinOf([Leaf("F", 45), ABE()], 1, CD(), Heap(4));
  }

  lemma Turn4()
    ensures MergeStep(Heap(4)) == [SampleTree()]
  {
    PopOf(Heap(4), 0, [Join(55, CD(), ABE())]);
    JoinOf([Join(55, CD(), ABE())], 0, Leaf("F", 45), [SampleTree()]);
  }

  /** The first heappop of a turn takes q[i] and leaves q1. */
  lemma PopOf(q: seq<Node>, i: nat, q1: seq<Node>)
    requires i < |q| && FirstLeast(q, i)
    requires q1 == Remove(q, i)
    ensures MinIndex(q) == i && Remove(q, MinIndex(q)) == q1
  {
    MinIndexIs(q, i);
  }

  /** The second heappop takes q1[k] and the heappush of its join with left
      gives r. */
  lemma JoinOf(q1: seq<Node>, k: nat, left: Node, r: seq<Node>)
    requires k < |q1| && FirstLeast(q1, k)
    requires Push(Remove(q1, k), left, q1[k]) == r
    ensures MinIndex(q1) == k && Push(Remove(q1, MinIndex(q1)), left, q1[MinIndex(q1)]) == r
  {
    MinIndexIs(q1, k);
  }

  /** Every frequency in the sample differs, so each heappop has a single
      candidate and build makes the tree above. */
  lemma SampleBuild()
    ensures MergeAll(TableLeaves(SampleTable())) == SampleTree()
  {
    Leaves();
    Turn0();
    Turn1();
    Turn2();
    Turn3();
    Turn4();
  }

  /** The codes the sample tree gives: A 1100, B 1101, C 100, D 101, E 111
      and F 0. */
  lemma SampleCodes()
    ensures Codes(SampleTree(), "") == map["A" := "1100", "B" := "1101", "C" := "100", "D" := "101", "E" := "111", "F" := "0"]
  {
    RightCodes();
    assert "" + "0" == "0" && "" + "1" == "1";
    assert Codes(SampleTree(), "") == map["F" := "0"] + Codes(Join(55, CD(), ABE()), "1");
    AllSix();
  }

  lemma AllSix()
    ensures map["F" := "0"] + map["C" := "100", "D" := "101", "A" := "1100", "B" := "1101", "E" := "111"] ==
      map["A" := "1100", "B" := "1101", "C" := "100", "D" := "101", "E" := "111", "F" := "0"]
  {
  }

  lemma ABECodes()
    ensures Codes(ABE(), "11") == map["A" := "1100", "B" := "1101", "E" := "111"]
  {
    ABCodes();
    assert "11" + "1" == "111" && "11" + "0" == "110";
  }

  lemma RightCodes()
    ensures Codes(Join(55, CD(), ABE()), "1") == map["C" := "100", "D" := "101", "A" := "1100", "B" := "1101", "E" := "111"]
  {
    ABECodes();
    CDCodes();
    assert "1" + "0" == "10" && "1" + "1" == "11";
    assert Codes(Join(55, CD(), ABE()), "1") == Codes(CD(), "10") + Codes(ABE(), "11");
    RightFive();
  }

  lemma RightFive()
    ensures map["C" := "100", "D" := "101"] + map["A" := "1100", "B" := "1101", "E" := "111"] ==
      map["C" := "100", "D" := "101", "A" := "1100", "B" := "1101", "E" := "111"]
  {
  }

  lemma ABCodes()
    ensures Codes(AB(), "110") == map["A" := "1100", "B" := "1101"]
  {
    assert "110" + "0" == "1100" && "110" + "1" == "1101";
  }

  lemma CDCodes()
    ensures Codes(CD(), "10") == map["C" := "100", "D" := "101"]
  {
    assert "10" + "0" == "100" && "10" + "1" == "101";
  }

  /** The example program (huffman.py:173-175): build the tree of the
      sample table and generate its codes. */
  method Sample() returns (codes: Result<map<string, string>>)
    ensures codes == Ok(map["A" := "1100", "B" := "1101", "C" := "100", "D" := "101", "E" := "111", "F" := "0"])
  {
    SampleDistinct();
    var huffman := new HuffmanTree(SampleTable());
    var r := huffman.Build();
    SampleBuild();
    codes := huffman.GenerateCodes();
    SampleCodes();
    FromEmpty(Codes(SampleTree(), ""));
  }

  lemma SampleDistinct()
    ensures DistinctKeys(SampleTable())
  {
  }

  lemma FromEmpty(m: map<string, string>)
    ensures map[] + m == m
  {
  }
}
