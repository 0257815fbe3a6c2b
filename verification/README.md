# ngx-donutchart slice geometry in Dafny

This project models the slice-geometry bookkeeping of the `ngx-donutchart`
Angular component (`NgXDonutChartComponent`). The component draws a donut chart
from an ordered list of `{value, color}` slices:

- it sums the values (`getTotal`);
- it decides whether a slice is drawn (`canRenderPath`);
- it draws a full ring when exactly one slice is positive (`_canRenderEmptySlice`);
- otherwise it gives each slice an annular sector whose angle is the slice's
  share of a full turn (`_getScaledData`);
- each sector starts where the previous one ended: a running `_startAngle`
  field moves forward by the sector angle every time `_getCompoundPathData`
  draws one.

Modules:

- `JsNumber` (`js_number.dfy`) holds the JavaScript number values this
  arithmetic can produce: finite values as exact reals, `Infinity`,
  `-Infinity` and `NaN`. It defines `+`, `-`, `>` and `||` on them, and `/` of two finite operands.
- `Decimal` (`decimal.dfy`) turns an integer into its canonical decimal text:
  no leading zero, a minus sign only for a negative number. For integers of
  magnitude at most 2^53 this is the text that `'-' + index` puts after the
  dash. It also has a parser that reads the text back.
- `DonutChart` (`donut_chart.dfy`) is the component:
  - `Slice` and `Chart`, the component's inputs;
  - `PathData`, an abstract path descriptor: `Ring(outer, inner)`, or
    `Sector(outer, inner, from, to, largeArc)`, whose `from` and `to` are the
    angles passed to the anchor computation;
  - `Total`, the guards, `ScaledData`, `CompoundPathData`, `GetPathData`,
    `AutomationSelector` and `TrackBy`.
- `RenderPass` (`render_pass.dfy`) draws the slices in order:
  - `Sweep` applies `_getCompoundPathData` to every slice;
  - `Render` models a host that draws a slice only when `canRenderPath`
    allows it, asking `getPathData` for its path.
- `Scenarios` (`scenarios.dfy`) works through concrete charts.

The mutable `_startAngle` field is passed in and returned explicitly. Like the
source, the model never resets it. `π` is the constant `Pi`, the decimal literal
JavaScript prints for `Math.PI`. No proof uses its digits, only the fact that
it is positive.

Over exact reals, the large-arc flag at lines 168-169 is not a defect. The
flag is computed from the accumulator after it has been advanced, but
`(start + angle) - start` is just the sector's own angle. So the flag holds
exactly when the sector angle exceeds π, which means the slice is more than
half the total (`LargeArcIffMoreThanHalf`, `SweepLargeArc`). The two forms
differ only when the angle is infinite: a positive value over a zero total.
There, the recomputation gives NaN and the flag is false. `canRenderPath`
never draws such a slice (`LargeArcInfiniteSector`).
Under binary64 rounding the two forms can also differ for a slice of exactly
half the total; "## Left out" gives the case.

Three facts about the code shape the model:

- The accumulator is never reset. Line 59 sets `_startAngle` once, and line
  166 only ever adds to it. `SecondPassTurnedByFullTurn` shows the effect:
  with a non-zero total, a second pass draws every sector of the first pass
  turned by exactly one full turn.
- A zero total gives angle 0 only for a zero value. A positive or negative
  value over a zero total divides a non-zero number by zero. That gives
  `Infinity` or `-Infinity`, and `|| 0` keeps it. With no negative value, a
  zero total forces every value to zero, so every angle is 0 there
  (`ZeroTotalScaled`).
- Values are not checked for sign, so the model accepts any real value.
  Lemmas that need non-negative values require it. With a negative value the
  drawn sectors can overlap past a full turn (`NegativeValueOverlaps`).

## Model

All source paths are in `src/ngx-donutchart.component.ts`.

| member | source | states |
|---|---|---|
| DonutChart.Total | src/ngx-donutchart.component.ts:120-122 | The total of no slices is 0; with no negative value the total is non-negative |
| DonutChart.TotalIsSum | src/ngx-donutchart.component.ts:120-122 | The left-to-right `reduce` from 0 equals the sum of all values |
| DonutChart.TotalBoundsValues | src/ngx-donutchart.component.ts:120-122 | With no negative value the total is at least every single value |
| DonutChart.ZeroTotalAllZero | src/ngx-donutchart.component.ts:120-122 | With no negative value a zero total means every value is zero |
| DonutChart.CanRenderPath | src/ngx-donutchart.component.ts:134-136 | The slice's value and the total are both positive |
| DonutChart.CanRenderEmptySlice | src/ngx-donutchart.component.ts:180-186 | The number of slices with a positive value is exactly 1 |
| DonutChart.CanRenderMember | src/ngx-donutchart.component.ts:134-136 | For a slice of a chart with no negative value, `canRenderPath` holds exactly when the slice's value is positive |
| DonutChart.CanRenderEmptySliceIff | src/ngx-donutchart.component.ts:180-186 | The counter of positive slices ends at 1 exactly when one index, and only one, holds a positive value |
| DonutChart.ScaledData | src/ngx-donutchart.component.ts:217-219 | The angle is never NaN; it is finite over a non-zero total; over a positive total its sign is the value's sign; over a zero total it is 0, +∞ or −∞ as the value is zero, positive or negative |
| DonutChart.ScaledIsShare | src/ngx-donutchart.component.ts:217-219 | Over a non-zero total, angle × total = 2π × value |
| DonutChart.ZeroTotalScaled | src/ngx-donutchart.component.ts:217-219 | With no negative value and a zero total, every slice's angle is 0 |
| DonutChart.CompoundPathData | src/ngx-donutchart.component.ts:159-169 | The sector starts at the accumulator and ends where the advanced accumulator points; for a finite start and non-zero total, the accumulator moves by exactly the slice's angle and the large-arc flag holds exactly when that angle exceeds π |
| DonutChart.LargeArcIffMoreThanHalf | src/ngx-donutchart.component.ts:166-169 | Over a positive total the large-arc flag holds exactly when the slice is more than half the total |
| DonutChart.LargeArcInfiniteSector | src/ngx-donutchart.component.ts:166-169 | A positive slice over a zero total has an angle above π, yet its recomputed flag is false; that slice is never drawn |
| DonutChart.GetPathData | src/ngx-donutchart.component.ts:141-157 | A ring is drawn exactly when one slice alone is positive, and then the accumulator does not move; otherwise the slice's sector is drawn |
| DonutChart.AutomationSelector | src/ngx-donutchart.component.ts:113-115 | With no index the selector is returned unchanged; with any index, 0 included, the result is the selector, a dash, and canonical decimal text that parses back to the index; by `Decimal.CanonicalUnique` that suffix is the index's only such text |
| DonutChart.AutomationSelectorDistinct | src/ngx-donutchart.component.ts:113-115 | Different indices give different selectors, and no indexed selector equals the bare one |
| DonutChart.TrackBy | src/ngx-donutchart.component.ts:92-94 | The track-by key is the position of the slice |
| DonutChart.TrackByIgnoresContent | src/ngx-donutchart.component.ts:92-94 | The track-by key depends only on the position, never on the slice, and two positions never share a key |
| Decimal.IntToString | src/ngx-donutchart.component.ts:114 | The decimal text of an index is non-empty and starts with a minus sign exactly when the index is negative |
| Decimal.IntToStringRoundTrip | src/ngx-donutchart.component.ts:114 | The decimal text of an index parses back to that index |
| Decimal.IntToStringInjective | src/ngx-donutchart.component.ts:114 | Distinct indices have distinct decimal texts |
| Decimal.IntToStringCanonical | src/ngx-donutchart.component.ts:114 | The decimal text of an index has no leading zero and is never `-0` |
| Decimal.CanonicalUnique | src/ngx-donutchart.component.ts:114 | A canonical text that parses to an index is exactly that index's decimal text, so `07` or `-0` can never stand in for it |
| RenderPass.Sweep | src/ngx-donutchart.component.ts:159-166 | One sector per slice, in order: the first starts at the initial accumulator, the last ends at the final one, and each sector ends exactly where the next one starts |
| RenderPass.AngleSumIsShare | src/ngx-donutchart.component.ts:217-219 | Over a non-zero total, the sum of the slices' angles × total = 2π × the sum of their values |
| RenderPass.SectorAnglesSumToFullTurn | src/ngx-donutchart.component.ts:217-219 | Over a non-zero total, the angles of all slices add up to exactly 2π |
| RenderPass.SweepAdvance | src/ngx-donutchart.component.ts:161-166 | Over a non-zero total, the accumulator ends the sweep advanced by the sum of the slices' angles |
| RenderPass.SweepSpans | src/ngx-donutchart.component.ts:161-166 | Over a non-zero total, the widths of the drawn sectors add up to the sum of the slices' angles |
| RenderPass.SweepFullTurn | src/ngx-donutchart.component.ts:159-166 | Over a non-zero total, one pass over all slices moves the accumulator by exactly 2π, and its sectors together span 2π |
| RenderPass.SweepMonotone | src/ngx-donutchart.component.ts:161-166 | With no negative value the accumulator never moves backwards: each sector runs forwards within the pass's range, and later sectors never start earlier |
| RenderPass.SweepWidths | src/ngx-donutchart.component.ts:161-166 | Over a non-zero total, every sector is exactly as wide as its own slice's angle |
| RenderPass.SweepLargeArc | src/ngx-donutchart.component.ts:166-169 | Over a positive total, every sector's flag holds exactly when its own width exceeds π, that is, when its slice is more than half the total |
| RenderPass.SweepRotates | src/ngx-donutchart.component.ts:162-166 | Over a non-zero total, starting the accumulator d later turns every sector by d and moves the final accumulator by d |
| RenderPass.SecondPassTurnedByFullTurn | src/ngx-donutchart.component.ts:59 | As the accumulator is never reset, over a non-zero total a second pass over the same slices draws the first pass's sectors turned by one full turn and ends 4π after the start |
| RenderPass.Render | src/ngx-donutchart.component.ts:134-143 | A host pass draws a slice exactly when `canRenderPath` allows it |
| RenderPass.RenderSinglePositive | src/ngx-donutchart.component.ts:141-143 | With a positive total and one positive slice, only that slice is drawn, as the full ring, and the accumulator stays put |
| RenderPass.RenderMatchesSweep | src/ngx-donutchart.component.ts:134-143 | With no negative value, a positive total and no single positive slice, the host pass draws exactly the positive slices with the sweep's sectors and ends at the sweep's accumulator |
| Scenarios.SinglePositiveDrawsRing | src/ngx-donutchart.component.ts:180-186 | Slices 10, 0, 0 draw one full ring, for the first slice, and nothing else |
| Scenarios.EqualSlicesAreQuarters | src/ngx-donutchart.component.ts:159-169 | Four equal slices give four quarter-turn sectors, edge to edge, none with the large-arc flag |
| Scenarios.NegativeValueOverlaps | src/ngx-donutchart.component.ts:134-143 | Slices 2, -1 and 1 draw sectors over [0, 2π] and [2π, 3π], skip the negative slice, and end 3π after the start: the drawn sectors overlap |
| Scenarios.OrderMatters | src/ngx-donutchart.component.ts:159-166 | Reordering the same values changes the first sector |
| Scenarios.SelectorWithIndexZero | src/ngx-donutchart.component.ts:113-115 | Index 0 gives `pie-0`, index 12 gives `pie-12`, no index gives `pie` |

## Left out

- `_getCalculatedAnchors` and `_getAbbreviatedNumber` (lines 188-223) are not
  modelled. They use `Math.sin`, `Math.cos` and rounding through
  `toFixed(12)`/`parseFloat`, which is floating-point numerics. A `Sector`
  records the two angles passed to the anchor computation instead of the four
  anchor points.
- The SVG path text of `_getEmptyPathData` and `_getCompoundPathData` is
  replaced by the abstract `Ring` and `Sector` descriptors. That text is
  presentation formatting.
- `getViewBox`, `getPXSize`, `getSize`, `getTitle` and `getPathFill` are left
  out. They are number-to-text formatting and trivial getters.
- `handleMouseEnter`, `handleMouseLeave` and the `onSliceHover` emitter are
  left out. They only forward events to the host framework.
- The Angular decorators, change detection, the template and `src/index.ts`
  (module wiring) are left out. The template is not part of this model. The
  order in which a host asks for paths, `RenderPass.Render`, is an assumption:
  slices in list order, each guarded by `canRenderPath`.
- JavaScript numbers are modelled as exact reals plus the infinities and NaN.
  The infinities and NaN arise only as results of the arithmetic. Rounding
  to binary64, overflow to infinity and the sign of zero are not modelled.
  Shared edges are exact even for doubles: line 162 passes
  `_startAngle + sectorAngle` as the end angle and line 166 stores that same
  sum as the next start. A full turn of exactly 2π holds only over reals.
- DonutChart.LargeArcIffMoreThanHalf (and RenderPass.SweepLargeArc): the
  flag holds exactly when the slice is more than half the total only over
  exact reals. In binary64 the recomputation `(S + a) + a - (S + a)` at lines
  166-169 can round above `Math.PI` for a slice of exactly half the total
  (angle `a` = `Math.PI`, accumulator `S` = 10π, reached after five passes
  since the accumulator is never reset), so the source then sets the flag.
- Slice values, `size` and `innerRadius` are finite reals, and so is the
  total. A `NaN` or infinite input is not modelled. In the source a `NaN`
  value makes the total `NaN`, so `canRenderPath` draws nothing; an infinite
  value makes the total infinite, so every finite value gets angle 0.
- DonutChart.AutomationSelector: the index is an optional integer. A `NaN`
  index (falsy, so no suffix) and a fractional index (printed with a decimal
  point) are not modelled. Above 2^53 the source prints the shortest digits
  that round back to the double, padded with zeros (2^60 gives
  `pie-1152921504606847000`), and from 10^21 on it uses exponent form
  (`pie-1e+21`). The model writes every digit of the integer, so its
  contract matches the source only for magnitudes up to 2^53, where every
  integer is a double and its digits are printed in full.
