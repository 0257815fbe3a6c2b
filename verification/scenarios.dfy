/** Concrete charts worked through the model. */
module Scenarios {
  import opened Options
  import opened JsNumber
  import opened DonutChart
  import opened RenderPass

  /** One positive slice among zeros: only that slice is drawn, as the full ring. */
  lemma SinglePositiveDrawsRing()
    ensures
      var c := Chart(100.0, 30.0, [Slice(10.0, "red"), Slice(0.0, "blue"), Slice(0.0, "green")]);
      && Render(c, Finite(0.0), c.slices).drawn == [Some(Ring(50.0, 30.0)), None, None]
      && Render(c, Finite(0.0), c.slices).end == Finite(0.0)
  {
    var c := Chart(100.0, 30.0, [Slice(10.0, "red"), Slice(0.0, "blue"), Slice(0.0, "green")]);
    assert Total(c.slices) == 10.0;
    assert OnlyPositiveAt(c.slices, 0);
    RenderSinglePositive(c, Finite(0.0), c.slices);
  }

  /** Four equal slices are four quarter-turn sectors, edge to edge, none taking the large arc. */
  lemma EqualSlicesAreQuarters()
    ensures
      var c := Chart(100.0, 30.0, [Slice(1.0, "a"), Slice(1.0, "b"), Slice(1.0, "c"), Slice(1.0, "d")]);
      var paths := Sweep(c, Finite(0.0), c.slices).paths;
      forall i :: 0 <= i < 4 ==>
        && paths[i].from == Finite(i as real * Pi / 2.0)
        && paths[i].to == Finite((i + 1) as real * Pi / 2.0)
        && !paths[i].largeArc
  {
    var c := Chart(100.0, 30.0, [Slice(1.0, "a"), Slice(1.0, "b"), Slice(1.0, "c"), Slice(1.0, "d")]);
    var ss := c.slices;
    TotalIsSum(ss);
    assert Sum(ss[3..]) == 1.0 by { assert ss[3..][1..] == []; }
    assert Sum(ss[2..]) == 2.0 by { assert ss[2..][1..] == ss[3..]; }
    assert Sum(ss[1..]) == 3.0 by { assert ss[1..][1..] == ss[2..]; }
    assert Total(ss) == 4.0;
    assert ScaledData(c, 1.0) == Finite(Pi / 2.0);
    SweepWidths(c, 0.0, ss);
    SweepLargeArc(c, 0.0, ss);
    var paths := Sweep(c, Finite(0.0), ss).paths;
    assert paths[0].from == Finite(0.0) && paths[0].to == Finite(Pi / 2.0);
    assert paths[1].from == paths[0].to && paths[1].to == Finite(2.0 * Pi / 2.0);
    assert paths[2].from == paths[1].to && paths[2].to == Finite(3.0 * Pi / 2.0);
    assert paths[3].from == paths[2].to && paths[3].to == Finite(4.0 * Pi / 2.0);
  }

  /** The same values in another order give another first sector: the drawing depends on order. */
  lemma OrderMatters()
    ensures
      var c1 := Chart(100.0, 30.0, [Slice(1.0, "a"), Slice(3.0, "b")]);
      var c2 := Chart(100.0, 30.0, [Slice(3.0, "b"), Slice(1.0, "a")]);
      Sweep(c1, Finite(0.0), c1.slices).paths[0] != Sweep(c2, Finite(0.0), c2.slices).paths[0]
  {
    var c1 := Chart(100.0, 30.0, [Slice(1.0, "a"), Slice(3.0, "b")]);
    var c2 := Chart(100.0, 30.0, [Slice(3.0, "b"), Slice(1.0, "a")]);
    assert Total(c1.slices) == 4.0 && Total(c2.slices) == 4.0;
    assert ScaledData(c1, 1.0) == Finite(Pi / 2.0);
    assert ScaledData(c2, 3.0) == Finite(3.0 * Pi / 2.0);
  }

  /**
    A negative value is not rejected: slices 2, -1 and 1 total 2, so the two
    drawn sectors span 2π and π, the second overlapping the first, and the
    pass ends a turn and a half on.
   */
  lemma NegativeValueOverlaps()
    ensures
      var c := Chart(100.0, 30.0, [Slice(2.0, "a"), Slice(-1.0, "b"), Slice(1.0, "c")]);
      var res := Render(c, Finite(0.0), c.slices);
      && res.drawn == [
           Some(Sector(50.0, 30.0, Finite(0.0), Finite(2.0 * Pi), true)),
           None,
           Some(Sector(50.0, 30.0, Finite(2.0 * Pi), Finite(3.0 * Pi), false))]
      && res.end == Finite(3.0 * Pi)
  {
    var c := Chart(100.0, 30.0, [Slice(2.0, "a"), Slice(-1.0, "b"), Slice(1.0, "c")]);
    var ss := c.slices;
    assert Total(ss) == 2.0;
    assert !OnlyPositiveAt(ss, 0) by { assert ss[2].value > 0.0; }
    assert !ExactlyOnePositive(ss) by {
      forall i | 0 <= i < |ss| && ss[i].value > 0.0
        ensures !OnlyPositiveAt(ss, i)
      {
        assert i == 0 || i == 2;
        assert ss[0].value > 0.0 && ss[2].value > 0.0;
      }
    }
    assert ScaledData(c, 2.0) == Finite(2.0 * Pi);
    assert ScaledData(c, 1.0) == Finite(Pi);
    var first := GetPathData(c, Finite(0.0), ss[0]);
    assert first == (Sector(50.0, 30.0, Finite(0.0), Finite(2.0 * Pi), true), Finite(2.0 * Pi));
    var third := GetPathData(c, Finite(2.0 * Pi), ss[2]);
    assert third == (Sector(50.0, 30.0, Finite(2.0 * Pi), Finite(3.0 * Pi), false), Finite(3.0 * Pi));
    assert ss[1..][1..] == [ss[2]];
  }

  /** Index 0 is written out; a missing index leaves the selector bare. */
  lemma SelectorWithIndexZero()
    ensures AutomationSelector("pie", Some(0)) == "pie-0"
    ensures AutomationSelector("pie", Some(12)) == "pie-12"
    ensures AutomationSelector("pie", None) == "pie"
  {
  }
}
