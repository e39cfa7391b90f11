/** The Star Wars example at the end of mochila.py (lines 154-170): five
    items, capacity 15. */
module KnapsackSample {
  import opened Basics
  import opened Knapsack

  function Saber(): Item { Item("Sable de luz", 5, 90) }
  function Holo(): Item { Item("Holoproyector", 2, 40) }
  function Blaster(): Item { Item("Bláster DL-44", 4, 70) }
  function Tools(): Item { Item("Herramientas de reparación", 3, 50) }
  function Drone(): Item { Item("Mini-dron de reconocimiento", 6, 85) }

  function StarWars(): seq<Item> {
    [Saber(), Holo(), Blaster(), Tools(), Drone()]
  }

  /** Take the first four items (weight 14, priority 250), skip the drone. */
  function Solution(): seq<Step> {
    [(Take, Saber()), (Take, Holo()), (Take, Blaster()), (Take, Tools()), (Skip, Drone())]
  }

  lemma SolutionFits()
    ensures Over(Solution(), StarWars()) && FitsAll(Solution(), 15, 0) && Gain(Solution()) == 250
  {
    var s := Solution();
    assert s[1..] == [(Take, Holo()), (Take, Blaster()), (Take, Tools()), (Skip, Drone())];
    assert s[1..][1..] == [(Take, Blaster()), (Take, Tools()), (Skip, Drone())];
    assert s[1..][1..][1..] == [(Take, Tools()), (Skip, Drone())];
    assert s[1..][1..][1..][1..] == [(Skip, Drone())];
    assert FitsAll(s[1..][1..][1..][1..], 15, 14);
    assert FitsAll(s[1..][1..][1..], 15, 11);
    assert FitsAll(s[1..][1..], 15, 7);
    assert FitsAll(s[1..], 15, 5);
  }

  /** Without the saber the other four items gain at most 245. */
  lemma WithoutSaber()
    ensures Opt(StarWars()[1..], 15, 0) <= 245
  {
    var its := StarWars()[1..];
    OptCeiling(its, 15, 0);
    assert its == [Holo(), Blaster(), Tools(), Drone()];
    assert its[1..] == [Blaster(), Tools(), Drone()] && its[1..][1..] == [Tools(), Drone()];
    assert its[1..][1..][1..] == [Drone()];
  }

  /** The drone alone, at weight w. */
  lemma DroneAlone(w: int)
    ensures Opt(StarWars()[4..], 15, w) == if w <= 9 then 85 else 0
  {
    assert StarWars()[4..] == [Drone()];
  }

  /** Tools and drone at weight w, plus the tools' fit. */
  lemma ToolsAndDrone(w: int)
    requires w == 5 || w == 7 || w == 9
    ensures Opt(StarWars()[3..], 15, w) == if w == 5 then 135 else 85
  {
    assert StarWars()[3..][1..] == StarWars()[4..];
    DroneAlone(w);
    DroneAlone(w + 3);
  }

  /** Without the holoprojector, after the saber: at most 155 more. */
  lemma WithoutHolo()
    ensures Opt(StarWars()[2..], 15, 5) == 155
  {
    assert StarWars()[2..][1..] == StarWars()[3..];
    ToolsAndDrone(5);
    ToolsAndDrone(9);
  }

  /** The only plan over the items that passes the fit tests and gains 250
      or more is Solution(). */
  lemma OnlyBest(s: seq<Step>)
    requires Over(s, StarWars()) && FitsAll(s, 15, 0) && Gain(s) >= 250
    ensures s == Solution()
  {
    var its := StarWars();
    var s1, s2, s3, s4 := s[1..], s[2..], s[3..], s[4..];
    assert s1[1..] == s2 && s2[1..] == s3 && s3[1..] == s4 && s4[1..] == [];
    assert Over(s1, its[1..]) && Over(s2, its[2..]) && Over(s3, its[3..]) && Over(s4, its[4..]);
    if s[0].0 == Skip {
      OptBound(its[1..], 15, 0, s1);
      WithoutSaber();
      assert false;
    }
    assert FitsAll(s1, 15, 5) && Gain(s) == 90 + Gain(s1);
    if s1[0].0 == Skip {
      OptBound(its[2..], 15, 5, s2);
      WithoutHolo();
      assert false;
    }
    assert FitsAll(s2, 15, 7) && Gain(s1) == 40 + Gain(s2);
    if s2[0].0 == Skip {
      OptBound(its[3..], 15, 7, s3);
      ToolsAndDrone(7);
      assert false;
    }
    assert FitsAll(s3, 15, 11) && Gain(s2) == 70 + Gain(s3);
    if s3[0].0 == Skip {
      OptBound(its[4..], 15, 11, s4);
      DroneAlone(11);
      assert false;
    }
    assert FitsAll(s4, 15, 14);
    assert s4[0].0 == Skip;
    assert s == [s[0], s1[0], s2[0], s3[0], s4[0]];
  }

  /** The script of mochila.py (lines 154-170): the optimal loadout is the
      saber, holoprojector, blaster and tools, with total priority 250. */
  method Sample() returns (solution: seq<Step>, totalPriority: int)
    ensures solution == Solution() && totalPriority == 250
  {
    var r := BuildAndSolve(StarWars(), 15);
    solution, totalPriority := r.value.0, r.value.1;
    SolutionFits();
    OptBound(StarWars(), 15, 0, Solution());
    OnlyBest(solution);
  }
}
