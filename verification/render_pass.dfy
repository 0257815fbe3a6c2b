/**
  The slices drawn one after another in input order, with the component's
  angle accumulator threaded from each slice to the next. `Sweep` applies the
  sector computation to every slice; `Render` is a host's pass over the list
  that draws a slice only when `canRenderPath` allows it and asks
  `getPathData` for its path.
 */
module RenderPass {
  import opened Options
  import opened JsNumber
  import opened DonutChart

  datatype SweepResult = SweepResult(paths: seq<PathData>, end: Number)

  datatype RenderResult = RenderResult(drawn: seq<Option<PathData>>, end: Number)

  /** `_getCompoundPathData` applied to each slice of `ss` in turn, from accumulator `start`. */
  function Sweep(c: Chart, start: Number, ss: seq<Slice>): (res: SweepResult)
    ensures |res.paths| == |ss|
    ensures forall i :: 0 <= i < |res.paths| ==> res.paths[i].Sector?
    ensures |ss| == 0 ==> res.end == start
    ensures |ss| > 0 ==> res.paths[0].from == start && res.paths[|ss| - 1].to == res.end
    ensures forall i :: 0 <= i < |res.paths| - 1 ==> res.paths[i].to == res.paths[i + 1].from
    decreases |ss|
  {
    if |ss| == 0 then SweepResult([], start)
    else
      var (p, next) := CompoundPathData(c, start, ss[0]);
      var rest := Sweep(c, next, ss[1..]);
      SweepResult([p] + rest.paths, rest.end)
  }

  /** Angular width of a sector with finite edges. */
  function Span(p: PathData): real {
    if p.Sector? && p.from.Finite? && p.to.Finite? then p.to.r - p.from.r else 0.0
  }

  function SumSpans(ps: seq<PathData>): real {
    if |ps| == 0 then 0.0 else Span(ps[0]) + SumSpans(ps[1..])
  }

  /** Unfolding of one step of the sweep. */
  lemma SweepStep(c: Chart, start: Number, ss: seq<Slice>)
    requires |ss| > 0
    ensures
      var step := CompoundPathData(c, start, ss[0]);
      var rest := Sweep(c, step.1, ss[1..]);
      && Sweep(c, start, ss).end == rest.end
      && Sweep(c, start, ss).paths[0] == step.0
      && Sweep(c, start, ss).paths[1..] == rest.paths
  {
  }

  /** Sum of the sector angles the slices of `ss` are given. */
  function AngleSum(c: Chart, ss: seq<Slice>): real
    requires Total(c.slices) != 0.0
  {
    if |ss| == 0 then 0.0 else ScaledData(c, ss[0].value).r + AngleSum(c, ss[1..])
  }

  /** The sector angles are together the values' share of a full turn. */
  lemma {:induction false} AngleSumIsShare(c: Chart, ss: seq<Slice>)
    requires Total(c.slices) != 0.0
    ensures AngleSum(c, ss) * Total(c.slices) == 2.0 * Pi * Sum(ss)
    decreases |ss|
  {
    if |ss| > 0 {
      ScaledIsShare(c, ss[0].value);
      AngleSumIsShare(c, ss[1..]);
      Distribute(ScaledData(c, ss[0].value).r, AngleSum(c, ss[1..]), Total(c.slices));
    }
  }

  lemma Distribute(x: real, y: real, t: real)
    ensures (x + y) * t == x * t + y * t
  {
  }

  /** Over a non-zero total the sector angles of all slices add up to exactly one full turn. */
  lemma SectorAnglesSumToFullTurn(c: Chart)
    requires Total(c.slices) != 0.0
    ensures AngleSum(c, c.slices) == 2.0 * Pi
  {
    AngleSumIsShare(c, c.slices);
    TotalIsSum(c.slices);
    Cancel(AngleSum(c, c.slices), 2.0 * Pi, Total(c.slices));
  }

  /** Over a non-zero total the accumulator advances by the sum of the slices' angles. */
  lemma {:induction false} SweepAdvance(c: Chart, a: real, ss: seq<Slice>)
    requires Total(c.slices) != 0.0
    ensures Sweep(c, Finite(a), ss).end == Finite(a + AngleSum(c, ss))
    decreases |ss|
  {
    if |ss| > 0 {
      var x := ScaledData(c, ss[0].value).r;
      SweepStep(c, Finite(a), ss);
      SweepAdvance(c, a + x, ss[1..]);
    }
  }

  /** Over a non-zero total the sectors' widths add up to the sum of the slices' angles. */
  lemma {:induction false} SweepSpans(c: Chart, a: real, ss: seq<Slice>)
    requires Total(c.slices) != 0.0
    ensures SumSpans(Sweep(c, Finite(a), ss).paths) == AngleSum(c, ss)
    decreases |ss|
  {
    if |ss| > 0 {
      var x := ScaledData(c, ss[0].value).r;
      var paths := Sweep(c, Finite(a), ss).paths;
      SweepStep(c, Finite(a), ss);
      SweepSpans(c, a + x, ss[1..]);
      assert paths[1..] == Sweep(c, Finite(a + x), ss[1..]).paths;
      assert SumSpans(paths) == Span(paths[0]) + SumSpans(paths[1..]);
    }
  }

  /**
    Over a non-zero total one sweep over all slices advances the accumulator
    by exactly a full turn, and its sectors together span a full turn.
   */
  lemma SweepFullTurn(c: Chart, a: real)
    requires Total(c.slices) != 0.0
    ensures Sweep(c, Finite(a), c.slices).end == Finite(a + 2.0 * Pi)
    ensures SumSpans(Sweep(c, Finite(a), c.slices).paths) == 2.0 * Pi
  {
    SweepAdvance(c, a, c.slices);
    SweepSpans(c, a, c.slices);
    SectorAnglesSumToFullTurn(c);
  }

  /** Every sector has finite edges lying in `[lo, hi]`, and its start does not exceed its end. */
  predicate WithinAndOrdered(ps: seq<PathData>, lo: real, hi: real) {
    forall i :: 0 <= i < |ps| ==>
      && ps[i].Sector? && ps[i].from.Finite? && ps[i].to.Finite?
      && lo <= ps[i].from.r <= ps[i].to.r <= hi
  }

  /**
    With no negative value the accumulator never moves backwards: every sector
    runs forwards, and a later sector starts no earlier than an earlier one.
   */
  lemma {:induction false} SweepMonotone(c: Chart, a: real, ss: seq<Slice>)
    requires NonNegative(c.slices)
    requires forall i :: 0 <= i < |ss| ==> ss[i] in c.slices
    ensures Sweep(c, Finite(a), ss).end.Finite?
    ensures a <= Sweep(c, Finite(a), ss).end.r
    ensures WithinAndOrdered(Sweep(c, Finite(a), ss).paths, a, Sweep(c, Finite(a), ss).end.r)
    ensures forall i, j :: 0 <= i <= j < |ss| ==>
      Sweep(c, Finite(a), ss).paths[i].from.r <= Sweep(c, Finite(a), ss).paths[j].from.r
    decreases |ss|
  {
    if |ss| > 0 {
      var res := Sweep(c, Finite(a), ss);
      var step := CompoundPathData(c, Finite(a), ss[0]);
      assert ss[0] in c.slices;
      var i0 :| 0 <= i0 < |c.slices| && c.slices[i0] == ss[0];
      if Total(c.slices) == 0.0 {
        ZeroTotalScaled(c, ss[0]);
      }
      var b := step.1.r;
      assert a <= b;
      assert forall i :: 0 <= i < |ss[1..]| ==> ss[1..][i] == ss[i + 1];
      SweepMonotone(c, b, ss[1..]);
      var rest := Sweep(c, Finite(b), ss[1..]);
      assert res.paths == [step.0] + rest.paths;
      assert forall i :: 1 <= i < |ss| ==> res.paths[i] == rest.paths[i - 1];
    }
  }

  /** Over a non-zero total each sector is exactly as wide as its slice's angle. */
  lemma {:induction false} SweepWidths(c: Chart, a: real, ss: seq<Slice>)
    requires Total(c.slices) != 0.0
    ensures forall i :: 0 <= i < |ss| ==>
      var p := Sweep(c, Finite(a), ss).paths[i];
      && p.from.Finite? && p.to.Finite?
      && p.to.r - p.from.r == ScaledData(c, ss[i].value).r
    decreases |ss|
  {
    if |ss| > 0 {
      var step := CompoundPathData(c, Finite(a), ss[0]);
      SweepStep(c, Finite(a), ss);
      SweepWidths(c, step.1.r, ss[1..]);
      var res := Sweep(c, Finite(a), ss);
      var rest := Sweep(c, Finite(step.1.r), ss[1..]);
      assert forall i :: 1 <= i < |ss| ==> res.paths[i] == rest.paths[i - 1] && ss[i] == ss[1..][i - 1];
    }
  }

  /**
    Over a positive total each sector takes the large arc exactly when its own
    angle exceeds a half turn, that is, when its slice is more than half the
    total, although the flag is computed from the already advanced accumulator.
   */
  lemma {:induction false} SweepLargeArc(c: Chart, a: real, ss: seq<Slice>)
    requires Total(c.slices) > 0.0
    ensures forall i :: 0 <= i < |ss| ==>
      var p := Sweep(c, Finite(a), ss).paths[i];
      && p.from.Finite? && p.to.Finite?
      && (p.largeArc <==> p.to.r - p.from.r > Pi)
      && (p.largeArc <==> 2.0 * ss[i].value > Total(c.slices))
    decreases |ss|
  {
    if |ss| > 0 {
      var step := CompoundPathData(c, Finite(a), ss[0]);
      LargeArcIffMoreThanHalf(c, a, ss[0]);
      SweepLargeArc(c, step.1.r, ss[1..]);
      var res := Sweep(c, Finite(a), ss);
      var rest := Sweep(c, Finite(step.1.r), ss[1..]);
      assert res.paths == [step.0] + rest.paths;
      assert forall i :: 1 <= i < |ss| ==> res.paths[i] == rest.paths[i - 1] && ss[i] == ss[1..][i - 1];
    }
  }

  /** A sector turned by `d`. */
  function Rotate(p: PathData, d: real): PathData {
    if p.Sector? then p.(from := Add(p.from, Finite(d)), to := Add(p.to, Finite(d))) else p
  }

  function RotateAll(ps: seq<PathData>, d: real): (qs: seq<PathData>)
    ensures |qs| == |ps| && forall i :: 0 <= i < |ps| ==> qs[i] == Rotate(ps[i], d)
  {
    seq(|ps|, i requires 0 <= i < |ps| => Rotate(ps[i], d))
  }

  /** Starting the accumulator `d` later turns every sector by `d` and changes nothing else. */
  lemma {:induction false} SweepRotates(c: Chart, a: real, d: real, ss: seq<Slice>)
    requires Total(c.slices) != 0.0
    ensures Sweep(c, Finite(a + d), ss).paths == RotateAll(Sweep(c, Finite(a), ss).paths, d)
    ensures Sweep(c, Finite(a + d), ss).end == Add(Sweep(c, Finite(a), ss).end, Finite(d))
    decreases |ss|
  {
    if |ss| > 0 {
      var step := CompoundPathData(c, Finite(a), ss[0]);
      var shifted := CompoundPathData(c, Finite(a + d), ss[0]);
      var b := step.1.r;
      assert shifted.1 == Finite(b + d);
      assert shifted.0 == Rotate(step.0, d);
      SweepRotates(c, b, d, ss[1..]);
      var res := Sweep(c, Finite(a), ss);
      assert res.paths == [step.0] + Sweep(c, Finite(b), ss[1..]).paths;
      assert Sweep(c, Finite(a + d), ss).paths == [shifted.0] + Sweep(c, Finite(b + d), ss[1..]).paths;
    }
  }

  /**
    The accumulator is never reset: a second pass over the same slices starts
    where the first ended, a full turn on, so it draws every sector of the
    first pass turned by exactly one full turn.
   */
  lemma SecondPassTurnedByFullTurn(c: Chart, a: real)
    requires Total(c.slices) != 0.0
    ensures
      var first := Sweep(c, Finite(a), c.slices);
      var second := Sweep(c, first.end, c.slices);
      && second.paths == RotateAll(first.paths, 2.0 * Pi)
      && second.end == Finite(a + 4.0 * Pi)
  {
    SweepFullTurn(c, a);
    SweepRotates(c, a, 2.0 * Pi, c.slices);
    SweepFullTurn(c, a + 2.0 * Pi);
  }

  /**
    A host's pass over `ss`: a slice allowed by `canRenderPath` is drawn with
    `getPathData`, which may advance the accumulator; any other is skipped.
   */
  function Render(c: Chart, start: Number, ss: seq<Slice>): (res: RenderResult)
    ensures |res.drawn| == |ss|
    ensures forall i :: 0 <= i < |ss| ==> (res.drawn[i].Some? <==> CanRenderPath(c, ss[i]))
    decreases |ss|
  {
    if |ss| == 0 then RenderResult([], start)
    else if CanRenderPath(c, ss[0]) then
      var (p, next) := GetPathData(c, start, ss[0]);
      var rest := Render(c, next, ss[1..]);
      RenderResult([Some(p)] + rest.drawn, rest.end)
    else
      var rest := Render(c, start, ss[1..]);
      RenderResult([None] + rest.drawn, rest.end)
  }

  /**
    When exactly one slice is positive and the total is positive, that slice
    alone is drawn, as the full ring, and the accumulator does not move.
   */
  lemma {:induction false} RenderSinglePositive(c: Chart, a: Number, ss: seq<Slice>)
    requires Total(c.slices) > 0.0 && ExactlyOnePositive(c.slices)
    ensures forall i :: 0 <= i < |ss| ==>
      Render(c, a, ss).drawn[i] == (if ss[i].value > 0.0 then Some(Ring(OuterRadius(c), c.innerRadius)) else None)
    ensures Render(c, a, ss).end == a
    decreases |ss|
  {
    if |ss| > 0 {
      RenderSinglePositive(c, a, ss[1..]);
      var res := Render(c, a, ss);
      assert res.drawn[1..] == Render(c, a, ss[1..]).drawn;
      assert forall i :: 1 <= i < |ss| ==> ss[i] == ss[1..][i - 1] && res.drawn[i] == res.drawn[1..][i - 1];
    }
  }

  /**
    With no negative value, a positive total and at least two positive slices,
    the host's pass draws exactly the positive slices, each with the sector the
    unguarded sweep gives it, and leaves the accumulator where the sweep does:
    skipping a zero slice is the same as advancing by its zero angle.
   */
  lemma {:induction false} RenderMatchesSweep(c: Chart, a: real, ss: seq<Slice>)
    requires Total(c.slices) > 0.0 && !ExactlyOnePositive(c.slices) && NonNegative(ss)
    ensures forall i :: 0 <= i < |ss| ==>
      Render(c, Finite(a), ss).drawn[i] ==
        (if ss[i].value > 0.0 then Some(Sweep(c, Finite(a), ss).paths[i]) else None)
    ensures Render(c, Finite(a), ss).end == Sweep(c, Finite(a), ss).end
    decreases |ss|
  {
    if |ss| > 0 {
      var step := CompoundPathData(c, Finite(a), ss[0]);
      var b := step.1.r;
      assert ss[0].value == 0.0 ==> b == a;
      var head := if ss[0].value > 0.0 then Some(step.0) else None;
      var res := Render(c, Finite(a), ss);
      var rest := Render(c, Finite(b), ss[1..]);
      assert res == RenderResult([head] + rest.drawn, rest.end);
      SweepStep(c, Finite(a), ss);
      var sw := Sweep(c, Finite(a), ss);
      var swRest := Sweep(c, Finite(b), ss[1..]);
      assert sw.paths == [step.0] + swRest.paths;
      RenderMatchesSweep(c, b, ss[1..]);
      forall i | 1 <= i < |ss|
        ensures res.drawn[i] == (if ss[i].value > 0.0 then Some(sw.paths[i]) else None)
      {
        assert ss[i] == ss[1..][i - 1];
        assert res.drawn[i] == rest.drawn[i - 1];
        assert sw.paths[i] == swRest.paths[i - 1];
      }
    }
  }
}
