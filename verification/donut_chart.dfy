/**
  The donut-chart component: its inputs, the running total, the render guards,
  the proportional sector angle, the per-slice path descriptor with its angle
  accumulator, and the automation-selector and track-by helpers.

  The component's mutable `_startAngle` field is threaded explicitly: every
  operation that reads it takes the current value and returns the next one.
 */
module DonutChart {
  import opened Options
  import opened JsNumber
  import Decimal

  /** `Math.PI`. No proof depends on its digits, only on its being positive. */
  const Pi: real := 3.141592653589793

  datatype Slice = Slice(value: real, color: string)

  /** The component's inputs: edge length of the square viewport, hole radius, slices in order. */
  datatype Chart = Chart(size: real, innerRadius: real, slices: seq<Slice>)

  /**
    An abstract SVG path: the full ring drawn when a single slice is positive,
    or an annular sector whose anchors are computed at angles `from` and `to`.
   */
  datatype PathData =
    | Ring(outerRadius: real, innerRadius: real)
    | Sector(outerRadius: real, innerRadius: real, from: Number, to: Number, largeArc: bool)

  predicate NonNegative(slices: seq<Slice>) {
    forall i :: 0 <= i < |slices| ==> slices[i].value >= 0.0
  }

  /** Reference sum of the values, head first. */
  function Sum(slices: seq<Slice>): real {
    if |slices| == 0 then 0.0 else slices[0].value + Sum(slices[1..])
  }

  /** `getTotal`: the values reduced from the left, starting from 0. */
  function Total(slices: seq<Slice>): (t: real)
    ensures |slices| == 0 ==> t == 0.0
    ensures NonNegative(slices) ==> t >= 0.0
  {
    if |slices| == 0 then 0.0
    else Total(slices[..|slices| - 1]) + slices[|slices| - 1].value
  }

  lemma {:induction false} SumAppend(slices: seq<Slice>, s: Slice)
    ensures Sum(slices + [s]) == Sum(slices) + s.value
    decreases |slices|
  {
    if |slices| > 0 {
      assert (slices + [s])[1..] == slices[1..] + [s];
      SumAppend(slices[1..], s);
    }
  }

  /** The left-to-right reduction equals the sum of all values. */
  lemma {:induction false} TotalIsSum(slices: seq<Slice>)
    ensures Total(slices) == Sum(slices)
    decreases |slices|
  {
    if |slices| > 0 {
      var init := slices[..|slices| - 1];
      TotalIsSum(init);
      SumAppend(init, slices[|slices| - 1]);
      assert init + [slices[|slices| - 1]] == slices;
    }
  }

  /** With no negative value the total is at least every single value. */
  lemma {:induction false} TotalBoundsValues(slices: seq<Slice>)
    requires NonNegative(slices)
    ensures forall i :: 0 <= i < |slices| ==> slices[i].value <= Total(slices)
    decreases |slices|
  {
    if |slices| > 0 {
      var init := slices[..|slices| - 1];
      TotalBoundsValues(init);
      forall i | 0 <= i < |slices|
        ensures slices[i].value <= Total(slices)
      {
        if i < |slices| - 1 {
          assert init[i] == slices[i];
        }
      }
    }
  }

  /** With no negative value a zero total means every value is zero. */
  lemma ZeroTotalAllZero(slices: seq<Slice>)
    requires NonNegative(slices) && Total(slices) == 0.0
    ensures forall i :: 0 <= i < |slices| ==> slices[i].value == 0.0
  {
    TotalBoundsValues(slices);
  }

  /** `canRenderPath`: a slice is drawn only when it and the total are positive. */
  predicate CanRenderPath(c: Chart, s: Slice) {
    s.value > 0.0 && Total(c.slices) > 0.0
  }

  /** For a slice of a chart with no negative value, being positive is enough to be drawn. */
  lemma CanRenderMember(c: Chart, s: Slice)
    requires NonNegative(c.slices) && s in c.slices
    ensures CanRenderPath(c, s) <==> s.value > 0.0
  {
    TotalBoundsValues(c.slices);
  }

  /** Number of strictly positive slices, as the counter in `_canRenderEmptySlice` ends up. */
  function CountPositive(slices: seq<Slice>): nat {
    if |slices| == 0 then 0
    else (if slices[0].value > 0.0 then 1 else 0) + CountPositive(slices[1..])
  }

  /** `_canRenderEmptySlice`: the counter of positive slices is exactly one. */
  predicate CanRenderEmptySlice(slices: seq<Slice>) {
    CountPositive(slices) == 1
  }

  /** Exactly one index holds a strictly positive value. */
  predicate ExactlyOnePositive(slices: seq<Slice>) {
    exists i :: 0 <= i < |slices| && slices[i].value > 0.0 && OnlyPositiveAt(slices, i)
  }

  predicate OnlyPositiveAt(slices: seq<Slice>, i: int) {
    forall j :: 0 <= j < |slices| && j != i ==> slices[j].value <= 0.0
  }

  lemma {:induction false} CountPositiveZero(slices: seq<Slice>)
    ensures CountPositive(slices) == 0 <==> forall j :: 0 <= j < |slices| ==> slices[j].value <= 0.0
    decreases |slices|
  {
    if |slices| > 0 {
      CountPositiveZero(slices[1..]);
      assert forall j :: 1 <= j < |slices| ==> slices[j] == slices[1..][j - 1];
    }
  }

  /** The counter is one exactly when one slice, and only one, is positive. */
  lemma {:induction false} CanRenderEmptySliceIff(slices: seq<Slice>)
    ensures CanRenderEmptySlice(slices) <==> ExactlyOnePositive(slices)
    decreases |slices|
  {
    if |slices| > 0 {
      var tail := slices[1..];
      CanRenderEmptySliceIff(tail);
      CountPositiveZero(tail);
      assert forall j :: 1 <= j < |slices| ==> slices[j] == tail[j - 1];
      if slices[0].value > 0.0 {
        if CountPositive(slices) == 1 {
          assert OnlyPositiveAt(slices, 0);
        }
        if ExactlyOnePositive(slices) {
          var i :| 0 <= i < |slices| && slices[i].value > 0.0 && OnlyPositiveAt(slices, i);
          assert i == 0;
        }
      } else {
        if ExactlyOnePositive(tail) {
          var i :| 0 <= i < |tail| && tail[i].value > 0.0 && OnlyPositiveAt(tail, i);
          assert slices[i + 1] == tail[i];
          assert OnlyPositiveAt(slices, i + 1);
        }
        if ExactlyOnePositive(slices) {
          var i :| 0 <= i < |slices| && slices[i].value > 0.0 && OnlyPositiveAt(slices, i);
          assert i > 0 && tail[i - 1] == slices[i];
          assert OnlyPositiveAt(tail, i - 1);
        }
      }
    }
  }

  /**
    `_getScaledData`: `(value * Math.PI * 2) / total || 0`. The angle is the
    value's share of a full turn; the `|| 0` turns NaN (zero over zero) into 0,
    while a non-zero value over a zero total stays infinite.
   */
  function ScaledData(c: Chart, value: real): (a: Number)
    ensures !a.NaN?
    ensures Total(c.slices) != 0.0 ==> a.Finite?
    ensures Total(c.slices) > 0.0 ==> (a.r > 0.0 <==> value > 0.0) && (a.r == 0.0 <==> value == 0.0)
    ensures Total(c.slices) == 0.0 ==> (a == Finite(0.0) <==> value == 0.0)
    ensures Total(c.slices) == 0.0 ==> (a.PosInf? <==> value > 0.0) && (a.NegInf? <==> value < 0.0)
  {
    Or(Div(value * Pi * 2.0, Total(c.slices)), Finite(0.0))
  }

  /** Over a non-zero total the scaled angle is the value's share of a full turn. */
  lemma ScaledIsShare(c: Chart, value: real)
    requires Total(c.slices) != 0.0
    ensures ScaledData(c, value).r * Total(c.slices) == 2.0 * Pi * value
  {
  }

  /** A non-zero factor cancels. */
  lemma Cancel(x: real, y: real, t: real)
    requires t != 0.0 && x * t == y * t
    ensures x == y
  {
    assert (x - y) * t == 0.0;
  }

  /** With no negative value and a zero total every scaled angle is 0. */
  lemma ZeroTotalScaled(c: Chart, s: Slice)
    requires NonNegative(c.slices) && Total(c.slices) == 0.0 && s in c.slices
    ensures ScaledData(c, s.value) == Finite(0.0)
  {
    ZeroTotalAllZero(c.slices);
  }

  /** The outer radius, half the viewport's edge. */
  function OuterRadius(c: Chart): real {
    c.size / 2.0
  }

  /**
    `_getCompoundPathData`: the sector from the accumulator to the accumulator
    plus the slice's angle, then the accumulator advanced by that angle. The
    large-arc flag is computed as the source does, after the advance, from
    `(start + angle) - start` with `start` already advanced.
   */
  function CompoundPathData(c: Chart, start: Number, s: Slice): (r: (PathData, Number))
    ensures r.0.Sector? && r.0.from == start && r.0.to == r.1
    ensures r.0.outerRadius == OuterRadius(c) && r.0.innerRadius == c.innerRadius
    ensures start.Finite? && Total(c.slices) != 0.0 ==>
      r.1.Finite? && r.1.r - start.r == ScaledData(c, s.value).r
    ensures start.Finite? && Total(c.slices) != 0.0 ==>
      (r.0.largeArc <==> ScaledData(c, s.value).r > Pi)
  {
    var sectorAngle := ScaledData(c, s.value);
    var from := start;
    var to := Add(start, sectorAngle);
    var advanced := Add(start, sectorAngle);
    var endAngle := Add(advanced, sectorAngle);
    var largeArc := Gt(Sub(endAngle, advanced), Finite(Pi));
    (Sector(OuterRadius(c), c.innerRadius, from, to, largeArc), advanced)
  }

  /** Over a positive total, a sector takes the large arc exactly when its slice is more than half the total. */
  lemma LargeArcIffMoreThanHalf(c: Chart, a: real, s: Slice)
    requires Total(c.slices) > 0.0
    ensures CompoundPathData(c, Finite(a), s).0.largeArc <==> 2.0 * s.value > Total(c.slices)
  {
    var t := Total(c.slices);
    ScaledIsShare(c, s.value);
    HalfTurnIffHalfShare(ScaledData(c, s.value).r, t, s.value, Pi);
  }

  /**
    The one case where recomputing the flag from the advanced accumulator
    differs from comparing the sector angle itself: a positive slice over a
    zero total has an infinite angle, `(start + angle) - start` is then NaN and
    the flag is false. Such a slice is never drawn.
   */
  lemma LargeArcInfiniteSector(c: Chart, a: real, s: Slice)
    requires Total(c.slices) == 0.0 && s.value > 0.0
    ensures Gt(ScaledData(c, s.value), Finite(Pi))
    ensures !CompoundPathData(c, Finite(a), s).0.largeArc
    ensures !CanRenderPath(c, s)
  {
  }

  /** If `x` is the share `v / t` of the turn `2 * p`, then `x` exceeds `p` exactly when `v` exceeds half of `t`. */
  lemma HalfTurnIffHalfShare(x: real, t: real, v: real, p: real)
    requires t > 0.0 && p > 0.0 && x * t == 2.0 * p * v
    ensures x > p <==> 2.0 * v > t
  {
    assert (x - p) * t == p * (2.0 * v - t);
    if x > p {
      assert (x - p) * t > 0.0;
    } else {
      assert (x - p) * t <= 0.0;
    }
    if 2.0 * v > t {
      assert p * (2.0 * v - t) > 0.0;
    } else {
      assert p * (2.0 * v - t) <= 0.0;
    }
  }

  /**
    `getPathData`: the full ring when exactly one slice is positive, leaving
    the accumulator where it was; otherwise the slice's sector.
   */
  function GetPathData(c: Chart, start: Number, s: Slice): (r: (PathData, Number))
    ensures r.0.Ring? <==> ExactlyOnePositive(c.slices)
    ensures r.0.Ring? ==> r == (Ring(OuterRadius(c), c.innerRadius), start)
    ensures r.0.Sector? ==> r == CompoundPathData(c, start, s)
  {
    CanRenderEmptySliceIff(c.slices);
    if CanRenderEmptySlice(c.slices) then (Ring(OuterRadius(c), c.innerRadius), start)
    else CompoundPathData(c, start, s)
  }

  /**
    `getDataAutomationSelector`: the selector, followed by a dash and the index
    whenever an index is given (0 included, as the `index === 0` test ensures).
   */
  function AutomationSelector(selector: string, index: Option<int>): (r: string)
    ensures index.None? ==> r == selector
    ensures index.Some? ==>
      && |r| >= |selector| + 2
      && r[..|selector|] == selector
      && r[|selector|] == '-'
      && Decimal.ParseInt(r[|selector| + 1..]) == index
      && Decimal.Canonical(r[|selector| + 1..])
  {
    if index.Some? then
      Decimal.IntToStringRoundTrip(index.value);
      Decimal.IntToStringCanonical(index.value);
      var r := selector + "-" + Decimal.IntToString(index.value);
      assert r[|selector| + 1..] == Decimal.IntToString(index.value);
      r
    else selector
  }

  /** Different indices give different selectors, and none equals the bare selector. */
  lemma AutomationSelectorDistinct(selector: string, i: int, j: int)
    ensures AutomationSelector(selector, Some(i)) != AutomationSelector(selector, None)
    ensures AutomationSelector(selector, Some(i)) == AutomationSelector(selector, Some(j)) ==> i == j
  {
  }

  /** `trackByFn`: the identity of a rendered path is its position. */
  function TrackBy(index: int, item: Slice): int {
    index
  }

  /** The track-by keys of two lists of the same length agree, whatever their contents. */
  lemma TrackByIgnoresContent(a: seq<Slice>, b: seq<Slice>)
    requires |a| == |b|
    ensures forall i :: 0 <= i < |a| ==> TrackBy(i, a[i]) == TrackBy(i, b[i])
    ensures forall i, j :: 0 <= i < j < |a| ==> TrackBy(i, a[i]) != TrackBy(j, a[j])
  {
  }
}
