# Grid planner, BiDi deserializer and network warning indicator, in Dafny

This project models three pieces of the DevTools front end and proves properties of them.

- **`PerfUi`** (`timeline_grid.dfy`) models the time-axis grid of the performance panels (`TimelineGrid.ts`).
  - The planner `calculateGridOffsets` picks a round slice duration of the form (1|2|5)×10ⁿ that is at least 64 pixels wide. It places gridlines at the multiples of that slice, aligned to `zeroTime`. It skips the lines left of the free zone and returns the floored positions with one shared label precision.
  - The planner is proved equal to a specification (`GridPlan`). The lemmas about `GridPlan` say the slice is the *least* such round value. They also say the offsets are exactly the aligned gridlines in the window, in increasing time, at least 64 pixels apart. The precision is proved to be `max(0, -n)` for a slice m×10ⁿ.
  - The `TimelineGrid` class holds the two element lists, dividers and label bars. `updateDividers` reconciles them with a fresh plan: it reuses elements from the front, appends the missing ones and removes the surplus. `removeDividers` empties both lists.
- **`BidiDeserializer`** (`bidi_deserializer.dfy`) models puppeteer's `BidiDeserializer`. It turns a WebDriver BiDi `script.RemoteValue` into a JavaScript value.
  - Arrays map element by element.
  - Sets fold `add` over their elements. Objects and maps fold key/value assignments over their tuples.
  - Leaves translate directly, and the four special-number strings become their numbers.
  - The main partner is a reference serializer, which is part of the model and not taken from the source. Every well-formed value survives serializing and deserializing. For sets, the fold keeps each member once in first-occurrence order. For objects and maps, each key's value is that of the last tuple naming it.
- **`MobileThrottling`** (`network_panel_indicator.dfy`) models the Network panel's warning indicator (`NetworkPanelIndicator.ts`).
  - `updateVisibility` collects one warning per active override, in a fixed order. It clears the tab icon when there are none. Otherwise it shows a warning icon whose tooltip is the lone warning, or one bulleted line per warning.
  - The constructor does nothing when the inspector has no Network panel.
- `Wrappers` (`wrappers.dfy`) holds an `Option` type and the predicate `NoRepeats` (no element occurs twice), which all three modules use.

**Numbers.** Numbers are exact reals. `Math.ceil(Math.log(x) / Math.LN10)` becomes the least k with 10^k ≥ x (`CeilLog10`). `Math.floor(Math.log(x) / Math.LN10)` becomes the greatest k with 10^k ≤ x (`FloorLog10`). `Math.ceil(r)` becomes `-((-r).Floor)`.

**The calculator.** The `Calculator` is an affine map, computePosition(t) = (t − minimumBoundary) × pixelsPerTime, with pixelsPerTime > 0. `formatValue` is an arbitrary function value. The origin at `minimumBoundary` is what makes the source's `computePosition(maximumBoundary) / boundarySpan` equal to the scale (TimelineGrid.ts, lines 66-69).

**Zero and negative spans.** Only a zero span is degenerate: its slice is 0/0, and the `!gridSliceTime` guard (TimelineGrid.ts, lines 94-96) leaves no dividers. A negative span is planned like any other, because the signs cancel in the scale of lines 66-69. For a zero span the source's precision is NaN; the model's is 0.

## Model

| member | source | states |
|---|---|---|
| PerfUi.Calculator.BoundarySpan | front_end/ui/legacy/components/perf_ui/TimelineGrid.ts:275-282 | `boundarySpan()`: maximumBoundary − minimumBoundary (no contract of its own; SourceScale relates it to the scale) |
| PerfUi.Calculator.ComputePosition | front_end/ui/legacy/components/perf_ui/TimelineGrid.ts:275-282 | `computePosition(time)`, the affine map from minimumBoundary at scale pixelsPerTime (no contract of its own; SourceScale, PixelGap and GridPlanGridlines state what the planner draws from it) |
| PerfUi.FreeZone | front_end/ui/legacy/components/perf_ui/TimelineGrid.ts:101 | `freeZoneAtLeft \|\| 0`: an absent free zone is 0 (no contract of its own; used by GridPlan) |
| PerfUi.Ceil | front_end/ui/legacy/components/perf_ui/TimelineGrid.ts:85-92 | `Math.ceil`: the result k is an integer with x ≤ k < x + 1 |
| PerfUi.Pow10 | front_end/ui/legacy/components/perf_ui/TimelineGrid.ts:77 | `Math.pow(10, n)` for any integer n, always positive; Pow10Monotone, CeilLog10 and FloorLog10 relate it to the decimal exponents |
| PerfUi.CeilLog10 | front_end/ui/legacy/components/perf_ui/TimelineGrid.ts:76 | the exponent k satisfies 10^(k−1) < x ≤ 10^k, so 10^k is the least power of ten not below x |
| PerfUi.FloorLog10 | front_end/ui/legacy/components/perf_ui/TimelineGrid.ts:107 | the exponent k satisfies 10^k ≤ x < 10^(k+1) |
| PerfUi.FloorLog10Unique | front_end/ui/legacy/components/perf_ui/TimelineGrid.ts:107 | any k with 10^k ≤ x < 10^(k+1) is FloorLog10(x) |
| PerfUi.NaiveSliceTime | front_end/ui/legacy/components/perf_ui/TimelineGrid.ts:64-67 | the naive slice is positive and exactly 64 pixels wide on screen |
| PerfUi.SourceScale | front_end/ui/legacy/components/perf_ui/TimelineGrid.ts:66-69 | for a non-zero span, the source's `clientWidth / boundarySpan` is the calculator's scale, and `boundarySpan / dividersCount` is the naive slice |
| PerfUi.GridSliceTime | front_end/ui/legacy/components/perf_ui/TimelineGrid.ts:76-83 | the planner's slice is positive |
| PerfUi.Refined | front_end/ui/legacy/components/perf_ui/TimelineGrid.ts:78-83 | the two conditional divisions; RefinedIsLadderStep and SourceSliceIsGridSliceTime state what they produce |
| PerfUi.RefinedIsLadderStep | front_end/ui/legacy/components/perf_ui/TimelineGrid.ts:78-83 | dividing 10q by 5 and then by 2 while the result stays wide enough gives 2q, 5q or 10q: the ladder step above the naive slice |
| PerfUi.LadderStepIsLeastRound | front_end/ui/legacy/components/perf_ui/TimelineGrid.ts:71-83 | the ladder step is a (1\|2\|5)×10ⁿ value not below the naive slice and under 2.5 times it, and no round value not below the naive slice is smaller |
| PerfUi.SourceSliceIsGridSliceTime | front_end/ui/legacy/components/perf_ui/TimelineGrid.ts:76-83 | refining the least power of ten not below the naive slice, as the source does, gives GridSliceTime |
| PerfUi.RefinedPowerIsSliceAbove | front_end/ui/legacy/components/perf_ui/TimelineGrid.ts:76-83 | the same, for any naive slice x = 64/p |
| PerfUi.GridSliceTimeIsLeastRound | front_end/ui/legacy/components/perf_ui/TimelineGrid.ts:64-83 | the slice is (1\|2\|5)×10ⁿ, between 64 and 160 pixels wide, and no narrower round value is 64 pixels wide |
| PerfUi.LadderStepOnScreen | front_end/ui/legacy/components/perf_ui/TimelineGrid.ts:64-83 | the ladder step above 64/p is the least round slice at least 64 pixels wide at scale p |
| PerfUi.LeastRoundOnScreen | front_end/ui/legacy/components/perf_ui/TimelineGrid.ts:64-83 | the least round value not below 64/p, read in pixels, is the least round slice at least 64 pixels wide |
| PerfUi.Precision | front_end/ui/legacy/components/perf_ui/TimelineGrid.ts:107 | the precision is never negative |
| PerfUi.PrecisionOfRound | front_end/ui/legacy/components/perf_ui/TimelineGrid.ts:107 | for a slice m×10ⁿ with m ∈ {1,2,5} the precision is max(0, −n); the factor 1.01 never changes it |
| PerfUi.FirstDividerIndex | front_end/ui/legacy/components/perf_ui/TimelineGrid.ts:86 | the `Math.ceil((minimumBoundary − zeroTime) / gridSliceTime)` of line 86; LeastAlignedIndex states that it is the least index whose gridline is not before minimumBoundary |
| PerfUi.FirstDividerTime | front_end/ui/legacy/components/perf_ui/TimelineGrid.ts:85-87 | `ceil((minimumBoundary − zeroTime)/slice)·slice + zeroTime`; LeastAlignedIndex states that it is the least aligned gridline not before minimumBoundary |
| PerfUi.LastDividerTime | front_end/ui/legacy/components/perf_ui/TimelineGrid.ts:88-91 | the right boundary plus 64 pixels' worth of time; the window bound of GridPlanGridlines |
| PerfUi.DividersCount | front_end/ui/legacy/components/perf_ui/TimelineGrid.ts:92 | `ceil((last − first)/slice)`; CandidateWithinCount states that it counts exactly the candidates before lastDividerTime |
| PerfUi.CandidateTime | front_end/ui/legacy/components/perf_ui/TimelineGrid.ts:100 | loop candidate i, `firstDividerTime + gridSliceTime * i`; CandidateStep, CandidateAligned and CandidateWithinCount state its properties |
| PerfUi.PlanOffsets | front_end/ui/legacy/components/perf_ui/TimelineGrid.ts:85-105 | the offsets of the loop run max(0, dividersCount) rounds from firstDividerTime; KeptIsWindow and PlanOffsetsOnScreen state which gridlines they are and how far apart, and GridPlanGridlines and GridPlanSpacing carry this to GridPlan |
| PerfUi.Kept | front_end/ui/legacy/components/perf_ui/TimelineGrid.ts:98-105 | the offsets the loop has pushed after n rounds; KeptSound, KeptComplete and KeptSorted characterise it |
| PerfUi.GridPlan | front_end/ui/legacy/components/perf_ui/TimelineGrid.ts:63-108 | the plan the planner returns; CalculateGridOffsets is proved equal to it, and GridPlanGridlines, GridPlanSpacing and GridPlanPrecision state its properties |
| PerfUi.KeptSound | front_end/ui/legacy/components/perf_ui/TimelineGrid.ts:98-105 | every offset the loop keeps is a candidate i < n right of the free zone, with the floored position of its time |
| PerfUi.KeptComplete | front_end/ui/legacy/components/perf_ui/TimelineGrid.ts:98-105 | every candidate i < n right of the free zone is kept |
| PerfUi.CandidateStep | front_end/ui/legacy/components/perf_ui/TimelineGrid.ts:100 | a later candidate lies at least one slice after an earlier one |
| PerfUi.KeptBelow | front_end/ui/legacy/components/perf_ui/TimelineGrid.ts:98-105 | the offsets kept in n rounds lie at least one slice before candidate n |
| PerfUi.KeptSorted | front_end/ui/legacy/components/perf_ui/TimelineGrid.ts:98-105 | kept offsets are in increasing time, at least one slice apart |
| PerfUi.AlignedAbove | front_end/ui/legacy/components/perf_ui/TimelineGrid.ts:85-87 | gridline k is not left of minimumBoundary exactly when k ≥ (minimumBoundary − zeroTime)/slice |
| PerfUi.LeastAlignedIndex | front_end/ui/legacy/components/perf_ui/TimelineGrid.ts:85-87 | `firstDividerTime` is the least `zeroTime + j*gridSliceTime`, for integer j, that is ≥ `minimumBoundary` |
| PerfUi.CandidateAligned | front_end/ui/legacy/components/perf_ui/TimelineGrid.ts:85-100 | candidate i of a loop started at gridline j is gridline j + i |
| PerfUi.CandidateWithinCount | front_end/ui/legacy/components/perf_ui/TimelineGrid.ts:88-98 | candidate i is below `lastDividerTime` exactly when i < `dividersCount` |
| PerfUi.PixelGap | front_end/ui/legacy/components/perf_ui/TimelineGrid.ts:104 | two times at least one slice (≥ 64 px) apart have floored positions at least 64 apart |
| PerfUi.KeptIsWindow | front_end/ui/legacy/components/perf_ui/TimelineGrid.ts:85-105 | the loop keeps exactly the aligned gridlines in [minimumBoundary, last) that are right of the free zone |
| PerfUi.GridPlanGridlines | front_end/ui/legacy/components/perf_ui/TimelineGrid.ts:85-105 | for a non-zero span, an offset is in the plan iff it is gridline `zeroTime + k*gridSliceTime` for some integer k, with time in [minimumBoundary, maximumBoundary + 64/ppt), position ≥ the free zone (0 when absent), and position the floor of its computed position |
| PerfUi.KeptOnScreen | front_end/ui/legacy/components/perf_ui/TimelineGrid.ts:98-105 | for a slice ≥ 64 px the kept offsets increase in time and are at least 64 pixels apart |
| PerfUi.PlanOffsetsOnScreen | front_end/ui/legacy/components/perf_ui/TimelineGrid.ts:85-105 | the offsets planned for a least round slice increase in time and are at least 64 pixels apart |
| PerfUi.GridPlanSpacing | front_end/ui/legacy/components/perf_ui/TimelineGrid.ts:64-104 | plan offsets are in strictly increasing time, and adjacent positions differ by at least 64 |
| PerfUi.GridPlanPrecision | front_end/ui/legacy/components/perf_ui/TimelineGrid.ts:107 | for a non-zero span the plan's precision is max(0, −n), where the slice is m×10ⁿ |
| PerfUi.CalculateGridOffsets | front_end/ui/legacy/components/perf_ui/TimelineGrid.ts:63-108 | for a non-zero span, the source's steps in its order return exactly GridPlan; a zero span returns at once with no dividers and precision 0 |
| PerfUi.RefineSlice | front_end/ui/legacy/components/perf_ui/TimelineGrid.ts:78-83 | the two conditional divisions compute Refined |
| PerfUi.PlaceDividers | front_end/ui/legacy/components/perf_ui/TimelineGrid.ts:85-105 | first and last divider times, the count and the loop give PlanOffsets |
| PerfUi.CollectOffsets | front_end/ui/legacy/components/perf_ui/TimelineGrid.ts:97-105 | the `continue` loop over `dividersCount` candidates yields the offsets of max(0, count) rounds |
| PerfUi.PercentLeft | front_end/ui/legacy/components/perf_ui/TimelineGrid.ts:203-207 | a zero width gives a non-finite style; otherwise left × width = 100 × position |
| PerfUi.Divider.constructor | front_end/ui/legacy/components/perf_ui/TimelineGrid.ts:182-184 | a new divider has no position yet |
| PerfUi.LabelBar.constructor | front_end/ui/legacy/components/perf_ui/TimelineGrid.ts:186-191 | a new label bar has no position and an empty label |
| PerfUi.TimelineGrid.constructor | front_end/ui/legacy/components/perf_ui/TimelineGrid.ts:49-60 | a new grid has no dividers and no label bars |
| PerfUi.TimelineGrid.RemoveDividers | front_end/ui/legacy/components/perf_ui/TimelineGrid.ts:164-167 | both element lists are empty afterwards |
| PerfUi.TimelineGrid.UpdateDividers | front_end/ui/legacy/components/perf_ui/TimelineGrid.ts:169-235 | returns true; both lists have one entry per plan offset; entry i sits at 100×position_i/width with label formatValue(time_i, precision); the first min(old, new) entries are the old elements; the rest are new; removed elements are untouched |
| PerfUi.TimelineGrid.ReuseOrCreate | front_end/ui/legacy/components/perf_ui/TimelineGrid.ts:176-213 | the cursor loop keeps the old elements in place, appends fresh ones past the end, and gives entry i the position and label of offset i |
| PerfUi.TimelineGrid.AppendElements | front_end/ui/legacy/components/perf_ui/TimelineGrid.ts:181-192 | a fresh divider and a fresh label bar are appended |
| PerfUi.TimelineGrid.SetElements | front_end/ui/legacy/components/perf_ui/TimelineGrid.ts:195-207 | the elements at the cursor get the label text and the position |
| PerfUi.TimelineGrid.RemoveDividersFrom | front_end/ui/legacy/components/perf_ui/TimelineGrid.ts:216-224 | the dividers from the cursor on are removed; the first ones and the label bars are kept as they were |
| PerfUi.TimelineGrid.RemoveLabelBarsFrom | front_end/ui/legacy/components/perf_ui/TimelineGrid.ts:225-233 | the label bars from the cursor on are removed; the first ones and the dividers are kept as they were |
| BidiDeserializer.DeserializeNumber | front_end/third_party/puppeteer/package/lib/cjs/puppeteer/bidi/Deserializer.js:24-37 | a number comes out exactly for a plain number or one of '-0', 'NaN', 'Infinity', '-Infinity'; a plain number is unchanged; any other string is returned as that string |
| BidiDeserializer.SerializeNumber | front_end/third_party/puppeteer/package/lib/cjs/puppeteer/bidi/Deserializer.js:24-37 | reference encoder: only the four special values travel as strings |
| BidiDeserializer.NumberRoundTrip | front_end/third_party/puppeteer/package/lib/cjs/puppeteer/bidi/Deserializer.js:24-37 | each of the five kinds of number decodes back to itself, so each special string maps to its own number |
| BidiDeserializer.SetAdd | front_end/third_party/puppeteer/package/lib/cjs/puppeteer/bidi/Deserializer.js:46 | `Set.prototype.add` on the insertion-ordered member list; FoldSetMembers and FoldSetIsFirstOccurrences state what folding it gives |
| BidiDeserializer.FoldSet | front_end/third_party/puppeteer/package/lib/cjs/puppeteer/bidi/Deserializer.js:44-47 | the `reduce` of lines 44-47 from an accumulator; characterised by FoldSetMembers, FoldSetOfDistinct and FoldSetIsFirstOccurrences |
| BidiDeserializer.FoldSetMembers | front_end/third_party/puppeteer/package/lib/cjs/puppeteer/bidi/Deserializer.js:44-47 | folding `add` keeps the old members in front, adds exactly the new elements, and introduces no repeats |
| BidiDeserializer.FoldSetOfDistinct | front_end/third_party/puppeteer/package/lib/cjs/puppeteer/bidi/Deserializer.js:44-47 | folding new, distinct elements appends them in order |
| BidiDeserializer.FirstOccurrences | front_end/third_party/puppeteer/package/lib/cjs/puppeteer/bidi/Deserializer.js:44-47 | reference definition without the fold: the elements that occur nowhere earlier, in order |
| BidiDeserializer.FoldSetSnoc | front_end/third_party/puppeteer/package/lib/cjs/puppeteer/bidi/Deserializer.js:44-47 | one more element at the end of the input is one more `add` on the result |
| BidiDeserializer.FoldSetIsFirstOccurrences | front_end/third_party/puppeteer/package/lib/cjs/puppeteer/bidi/Deserializer.js:44-47 | filling an empty Set keeps exactly the first occurrences, in order |
| BidiDeserializer.FoldSetFromEmpty | front_end/third_party/puppeteer/package/lib/cjs/puppeteer/bidi/Deserializer.js:44-47 | a Set filled from xs is the first occurrences of xs, holds no repeats, and holds exactly the elements of xs |
| BidiDeserializer.Put | front_end/third_party/puppeteer/package/lib/cjs/puppeteer/bidi/Deserializer.js:49-57 | `acc[key] = value` and `acc.set(key, value)`; PutKeys, PutLookup and PutFresh state what it does |
| BidiDeserializer.FoldEntries | front_end/third_party/puppeteer/package/lib/cjs/puppeteer/bidi/Deserializer.js:48-58 | the `reduce` over tuples from an accumulator; characterised by FoldEntriesKeys, FoldEntriesLookup and FoldEntriesOfDistinct |
| BidiDeserializer.PutKeys | front_end/third_party/puppeteer/package/lib/cjs/puppeteer/bidi/Deserializer.js:48-58 | an assignment changes the key order exactly as adding the key to a Set would |
| BidiDeserializer.PutLookup | front_end/third_party/puppeteer/package/lib/cjs/puppeteer/bidi/Deserializer.js:48-58 | after an assignment the key holds the new value and every other key is untouched |
| BidiDeserializer.PutFresh | front_end/third_party/puppeteer/package/lib/cjs/puppeteer/bidi/Deserializer.js:48-58 | assigning a new key appends the entry |
| BidiDeserializer.FoldEntriesKeys | front_end/third_party/puppeteer/package/lib/cjs/puppeteer/bidi/Deserializer.js:48-58 | the keys of the folded object are the keys of the tuples in first-occurrence order |
| BidiDeserializer.FoldEntriesLookup | front_end/third_party/puppeteer/package/lib/cjs/puppeteer/bidi/Deserializer.js:48-58 | a later tuple with the same key overwrites an earlier one: each key holds the value of its last tuple |
| BidiDeserializer.FoldEntriesOfDistinct | front_end/third_party/puppeteer/package/lib/cjs/puppeteer/bidi/Deserializer.js:48-58 | folding entries with new, distinct keys appends them in order |
| BidiDeserializer.DeserializeLocalValue | front_end/third_party/puppeteer/package/lib/cjs/puppeteer/bidi/Deserializer.js:38-80 | the host value of each protocol type (no contract of its own); ArrayElements, MissingValueIsUndefined, LeafValues, SetMembers, EntriesFold and RoundTrip state what it returns |
| BidiDeserializer.Deserialize | front_end/third_party/puppeteer/package/lib/cjs/puppeteer/bidi/Deserializer.js:88-94 | undefined for an absent result, otherwise deserializeLocalValue; DeserializeRoundTrip states it |
| BidiDeserializer.DeserializeAll | front_end/third_party/puppeteer/package/lib/cjs/puppeteer/bidi/Deserializer.js:40-43 | same length as the input; element i is input element i deserialized |
| BidiDeserializer.DeserializeTuples | front_end/third_party/puppeteer/package/lib/cjs/puppeteer/bidi/Deserializer.js:48-58 | same length as the input; entry i is tuple i deserialized |
| BidiDeserializer.DeserializeTuple | front_end/third_party/puppeteer/package/lib/cjs/puppeteer/bidi/Deserializer.js:81-87 | a string key is kept verbatim, any other key is deserialized, and the value is always deserialized |
| BidiDeserializer.ArrayElements | front_end/third_party/puppeteer/package/lib/cjs/puppeteer/bidi/Deserializer.js:39-43 | an array keeps length and order, and element i is input element i deserialized |
| BidiDeserializer.MissingValueIsUndefined | front_end/third_party/puppeteer/package/lib/cjs/puppeteer/bidi/Deserializer.js:40-58 | an array, set, object or map without `value` gives undefined |
| BidiDeserializer.LeafValues | front_end/third_party/puppeteer/package/lib/cjs/puppeteer/bidi/Deserializer.js:59-79 | promise gives `{}`; undefined and null give themselves; string and boolean keep their value; number goes through deserializeNumber; an unsupported type gives undefined |
| BidiDeserializer.SetMembers | front_end/third_party/puppeteer/package/lib/cjs/puppeteer/bidi/Deserializer.js:44-47 | the set's members are the first occurrences of the deserialized elements, in order: exactly the deserialized elements, without repeats |
| BidiDeserializer.EntriesFold | front_end/third_party/puppeteer/package/lib/cjs/puppeteer/bidi/Deserializer.js:48-58 | a deserialized object and a deserialized map of the same tuples hold the same entries: distinct keys, in first-occurrence order, each with the value of the last tuple naming it |
| BidiDeserializer.RoundTrip | front_end/third_party/puppeteer/package/lib/cjs/puppeteer/bidi/Deserializer.js:38-80 | every well-formed value, serialized, deserializes back to itself |
| BidiDeserializer.RoundTripArray | front_end/third_party/puppeteer/package/lib/cjs/puppeteer/bidi/Deserializer.js:40-43 | the round trip for arrays |
| BidiDeserializer.RoundTripSet | front_end/third_party/puppeteer/package/lib/cjs/puppeteer/bidi/Deserializer.js:44-47 | the round trip for sets without repeats |
| BidiDeserializer.RoundTripObject | front_end/third_party/puppeteer/package/lib/cjs/puppeteer/bidi/Deserializer.js:48-53 | the round trip for objects with distinct keys |
| BidiDeserializer.RoundTripMap | front_end/third_party/puppeteer/package/lib/cjs/puppeteer/bidi/Deserializer.js:54-58 | the round trip for maps with distinct keys |
| BidiDeserializer.RefoldSet | front_end/third_party/puppeteer/package/lib/cjs/puppeteer/bidi/Deserializer.js:44-47 | folding a repeat-free sequence into an empty Set gives it back |
| BidiDeserializer.RefoldEntries | front_end/third_party/puppeteer/package/lib/cjs/puppeteer/bidi/Deserializer.js:48-58 | folding entries with distinct keys into an empty object or map gives them back |
| BidiDeserializer.RoundTripAll | front_end/third_party/puppeteer/package/lib/cjs/puppeteer/bidi/Deserializer.js:40-43 | the round trip, element by element |
| BidiDeserializer.RoundTripEntries | front_end/third_party/puppeteer/package/lib/cjs/puppeteer/bidi/Deserializer.js:48-58 | the round trip, tuple by tuple |
| BidiDeserializer.RoundTripEntry | front_end/third_party/puppeteer/package/lib/cjs/puppeteer/bidi/Deserializer.js:81-87 | a key/value pair, serialized, deserializes back to itself |
| BidiDeserializer.DeserializeRoundTrip | front_end/third_party/puppeteer/package/lib/cjs/puppeteer/bidi/Deserializer.js:88-94 | an absent result gives undefined; a present result that a peer serialized from a well-formed value deserializes back to that value |
| MobileThrottling.I18nString | front_end/panels/mobile_throttling/NetworkPanelIndicator.ts:11-33 | the English text of each `UIStrings` key |
| MobileThrottling.Active | front_end/panels/mobile_throttling/NetworkPanelIndicator.ts:56-68 | the five tests of lines 56-68, in push order; one flag per warning of WarningOrder |
| MobileThrottling.Warnings | front_end/panels/mobile_throttling/NetworkPanelIndicator.ts:55-70 | the reference warning list, which CollectWarnings is proved to build; WarningsMembers, WarningsInOrder and NoWarnings state its content and order |
| MobileThrottling.SelectMembers | front_end/panels/mobile_throttling/NetworkPanelIndicator.ts:55-70 | of distinct candidates, one is selected exactly when its flag is set, and one per set flag |
| MobileThrottling.WarningsMembers | front_end/panels/mobile_throttling/NetworkPanelIndicator.ts:55-70 | each warning is listed exactly when its condition holds, and there is one warning per true condition |
| MobileThrottling.Rank | front_end/panels/mobile_throttling/NetworkPanelIndicator.ts:55-70 | each warning's place in the order throttling, cache, interception, blocking, encodings |
| MobileThrottling.SelectRanked | front_end/panels/mobile_throttling/NetworkPanelIndicator.ts:55-70 | the warnings chosen from the first n conditions have ranks below n, in increasing rank |
| MobileThrottling.WarningsInOrder | front_end/panels/mobile_throttling/NetworkPanelIndicator.ts:55-70 | the warnings come in the fixed order: throttling, cache disabled, intercepting, blocking, accepted-encoding override |
| MobileThrottling.NoWarnings | front_end/panels/mobile_throttling/NetworkPanelIndicator.ts:55-72 | the list is empty exactly when no condition holds |
| MobileThrottling.Texts | front_end/panels/mobile_throttling/NetworkPanelIndicator.ts:57-69 | the `i18nString(...)` text of each collected key, in order (no contract of its own; PanelIconCases states the tooltip built from it) |
| MobileThrottling.Join | front_end/panels/mobile_throttling/NetworkPanelIndicator.ts:75 | `Array.prototype.join` with a separator; BulletedLines and TooltipLines state what the tooltip built from it holds |
| MobileThrottling.Tooltip | front_end/panels/mobile_throttling/NetworkPanelIndicator.ts:75 | the tooltip for one or more warnings; TooltipLines and PanelIconCases state it |
| MobileThrottling.Bulleted | front_end/panels/mobile_throttling/NetworkPanelIndicator.ts:75 | each warning is put behind a bullet `· ` |
| MobileThrottling.BulletedLines | front_end/panels/mobile_throttling/NetworkPanelIndicator.ts:75 | `'· ' + warnings.join('\n· ')` is the bulleted warnings joined by newlines |
| MobileThrottling.TooltipLines | front_end/panels/mobile_throttling/NetworkPanelIndicator.ts:75 | with two or more warnings the tooltip is one bulleted line per warning |
| MobileThrottling.PanelIconFor | front_end/panels/mobile_throttling/NetworkPanelIndicator.ts:71-78 | the icon for the current conditions, which UpdateVisibility sets; PanelIconCases states its cases |
| MobileThrottling.PanelIconCases | front_end/panels/mobile_throttling/NetworkPanelIndicator.ts:71-78 | the icon is cleared exactly when no condition holds; with one warning the tooltip is its text; with several it is `'· '` followed by the warnings joined with `'\n· '` |
| MobileThrottling.CollectWarnings | front_end/panels/mobile_throttling/NetworkPanelIndicator.ts:55-70 | the conditional pushes, from an empty list, give exactly the reference warning list |
| MobileThrottling.NetworkPanelIndicator.constructor | front_end/panels/mobile_throttling/NetworkPanelIndicator.ts:38-53 | without a Network panel nothing listens and the icon is left as it was; otherwise the indicator listens and the icon is set for the current conditions |
| MobileThrottling.NetworkPanelIndicator.UpdateVisibility | front_end/panels/mobile_throttling/NetworkPanelIndicator.ts:54-79 | the Network tab's icon becomes PanelIconFor(current conditions), a function of those conditions alone, so two updates under the same conditions set the same icon |

## Left out

- Floating point. `Math.log`/`Math.pow` rounding, NaN and Infinity, and the `×1.01` guard at an exact power of ten are not modelled; the model computes over exact reals.
- PerfUi.GridPlan: for a zero span the source's slice is NaN and its precision is NaN. The model returns no offsets, as the `!gridSliceTime` guard does, with precision 0.
- PerfUi.Calculator: it is assumed affine, starting at `minimumBoundary`, with a positive scale. GridPlan, CalculateGridOffsets, PlaceDividers, UpdateDividers, GridSliceTime and the lemmas about GridPlan require it; the loop-level members (Kept, KeptSound, KeptComplete, CollectOffsets, ReuseOrCreate) do not. A calculator with another mapping is not modelled.
- PerfUi.PercentLeft: the `'%'` style string and the browser's refusal of non-finite values are not modelled. Non-finite values are a `Left` constructor of their own.
- The grid's DOM is not modelled.
  - Element creation in the constructor, class names and the `labelMap` global are left out. A label bar carries its label's text directly.
  - `drawCanvasGrid`, `drawCanvasHeaders`, the event dividers, hide/show and `setScrollTop` are left out. They are presentation code.
- BidiDeserializer: `RegExp`, `Date` and `BigInt` are not constructed. They stay opaque constructors that hold the protocol text. A `regexp` value is assumed to be present, as the source assumes when it reads `value.pattern`.
- BidiDeserializer: object keys are not coerced to strings, and integer-like keys are not reordered. Keys are whole values.
- BidiDeserializer: set membership and map keys use structural equality, not SameValueZero on object identity.
  - So two structurally equal object keys merge where the browser would keep two entries.
  - A `"-0"` key and a `0` key stay apart.
- BidiDeserializer.EntriesFold: assigning the key `"__proto__"` to a plain object (Deserializer.js, line 51) runs the prototype setter and creates no own property. The model records it as an ordinary entry, because prototypes are not modelled.
- BidiDeserializer: `new RegExp(pattern, flags)` and `BigInt(value)` (lines 62 and 72) throw on malformed text, which aborts the whole deserialization. The model's `JsRegExp` and `JsBigInt` always succeed, because the model holds no regular-expression or integer syntax.
- BidiDeserializer: a `string`, `number`, `boolean`, `bigint` or `date` value without its `value` field is not modelled. The source gives undefined, undefined, `false`, a TypeError and an Invalid Date for these. The model's leaf constructors always carry a value.
- BidiDeserializer.LeafValues: `Boolean(value)` is taken to be the boolean the protocol sends. Truthiness of other values is not modelled.
- BidiDeserializer: the `debugError` logging is left out.
- BidiDeserializer.WellFormed: the round trip is limited to sets without repeats and objects or maps with distinct keys. Those are the values a peer sends.
- MobileThrottling: i18n lookup is the identity onto the English texts of `UIStrings`. The warning list holds `UIStrings` keys, and their texts are mapped over when the tooltip is built.
- MobileThrottling: the event-listener wiring is a `listening` flag rather than five registrations.
  - The network manager and the `cacheDisabled` setting are reduced to the five booleans they report.
  - The icon's name, colour and size and the tooltip installation are left out.
- The files `front_end/panels/explain/components/ConsoleInsight.ts`, `front_end/ui/legacy/utils/inject-core-styles.ts` and `front_end/panels/sources/sources.ts` are not part of this model. Nor are the test files. They hold rendering, DOM and re-export code, and the tests exercise protocol connections rather than these cores.
