# TrackEditor interaction engine, modelled in Dafny

TrackEditor is a SwiftUI timeline editor. Lanes of regions are laid out on a grid of bars. Regions are dragged, resized and dropped between lanes by touch gestures. This project models the engine under the view composition:

- **Timeline arithmetic.** Pixel x positions map to bars as `round((x − headerWidth) / barWidth)`. Swift's `round` is modelled as half away from zero. A released frame's origin snaps to the bar and track grid (module `Timeline`, on `real` coordinates from `Geometry`).
- **Region arrangement.** There are three revisions of the layout:
  - `Arrange` clamps the predecessor's end to the lane start.
  - The `Lane.swift` revision does not clamp.
  - The `TrackLane` revision looks regions up by value, with the client `Data`'s own `==`. That equality is a parameter. The lemmas require only that it is reflexive, which `Equatable` requires.

  Each sorts the regions by start. Each gives every region a width and a leading padding, so that a left-to-right layout puts each region at its absolute bar. `EqualParts` splits the lane range into equal columns.
- **The hit-test registry.**
  - The registry holds lane entries (`LanePreference`). Each entry has an id, a rect and the region entries (`RegionPreference`) laid out in it.
  - The preference keys concatenate the entries.
  - The id subscript finds the first entry with the id.
  - The hit-tests find the first lane or region, in registry order, whose rect contains a point (`HitTest`, `Search`).
- **Release resolvers.**
  - `TrackGestureHandler`, `LaneDragGestureHandler`, `RegionDragGestureHandler` and `TrackModel` turn a released frame into an integer address: a lane id and a range of bars.
  - The target lane is the lane under the release point. When there is none, the lane the drag came from is used, except in `TrackModel`, which has no fallback.
  - The deferred move action is a datatype with an `Apply` function. It commits a focused selection, or does nothing when the address's lane is not registered.
  - The pair is handed to the host callback, or applied at once when no callback is set (`MoveCommit.Handoff`).
- **Gesture views.** Each gesture background or overlay is a class whose `selection` field stands for the shared selection binding. Its `OnChanged`, `OnEnded` and `Tap` methods are proved against pure functions of the same module (`Changed`, `EndedSelection`/`Ended`, `HostPart`). The lemmas about those functions carry the behavioural properties: whole press-drag-release sequences, snapping on the grid, and one-bar commits.
- **Small state types.** These are `TrackGestureState`, `RegionSelection` with its hash-based equality, `TrackEditorGestureState` and `FrameBackground.DragState`, together with their derived properties.

Ids (`AnyHashable`, `String`) are modelled as `string`. Anchors are modelled as rects that have already been resolved. A callback is a boolean that says whether it is set.

## Model

| member | source | states |
|---|---|---|
| Geometry.OffsetBy | Sources/TrackEditor/Gestures/TrackGestureHandler.swift:56 | an offset frame keeps its size and its origin moves by exactly `dx` and `dy` |
| Geometry.Max | Sources/TrackEditor/Gestures/RegionEdgeDragGestureOverlay.swift:44 | `max` is at least both arguments and is one of them |
| Geometry.ContainsIsHalfOpen | Sources/TrackEditor/Gestures/TrackDragGestureBackground.swift:146 | `CGRect.contains` is half-open: a rect holds its origin exactly when its size is positive, never a point on its right or bottom edge, and nothing when it is empty |
| Timeline.RoundNear | Sources/TrackEditor/Gestures/TrackDragGestureBackground.swift:136-137 | Swift `round` lands within half a unit of its argument |
| Timeline.Round | Sources/TrackEditor/Gestures/TrackDragGestureBackground.swift:136-137 | `round` lands within half a unit of its argument, with the half-unit boundary taken on the side away from zero |
| Timeline.RoundHalves | Sources/TrackEditor/TrackModel.swift:21-22 | every half-integer rounds away from zero: `n + 0.5` goes to `n + 1` for `n >= 0` and to `n` below, `n - 0.5` goes to `n - 1` for `n <= 0` and to `n` above |
| Timeline.PeriodFor | Sources/TrackEditor/Gestures/TrackDragGestureBackground.swift:135-139 | `period(for:)` has whole-bar bounds, each within half a bar of the frame's edge in bars, and in order for a frame of non-negative width |
| Timeline.InFlightPeriod | Sources/TrackEditor/Gestures/TrackGestureHandler.swift:56-61 | the in-flight period has whole bounds, and its lower bound is within half a unit of the translated x measured in frame widths |
| Timeline.InFlightPeriodIsOneUnit | Sources/TrackEditor/Gestures/TrackGestureHandler.swift:59-61 | right of the origin the in-flight period is exactly one unit long |
| Timeline.SnapAxis | Sources/TrackEditor/Gestures/RegionLongPressDragGestureOverlay.swift:60-61 | one axis of the release snap lands a whole number of cells from the origin, and within half a cell of the value |
| Timeline.SnapAxisIdempotent | Sources/TrackEditor/Gestures/RegionLongPressDragGestureOverlay.swift:60-61 | snapping a value that is already snapped leaves it where it is |
| Timeline.SnapOrigin | Sources/TrackEditor/Gestures/RegionLongPressDragGestureOverlay.swift:60-61 | the snapped frame keeps its size; its x is a whole number of bars past the header, its y a whole number of tracks below the ruler, each moved by at most half a cell |
| Timeline.SnapOriginIdempotent | Sources/TrackEditor/Gestures/RegionLongPressDragGestureOverlay.swift:60-61 | snapping a snapped frame changes nothing |
| Timeline.SnappedPeriodStart | Sources/TrackEditor/Gestures/RegionLongPressDragGestureOverlay.swift:60-61 | after snapping, the period starts exactly at the frame's x in bars |
| Timeline.GridFramePeriod | Sources/TrackEditor/Gestures/TrackDragGestureBackground.swift:135-139 | a frame at bar `k` and `n` bars wide has the period `k ..< k + n` |
| Search.FirstIndex | Sources/TrackEditor/LanePreference.swift:47 | `firstIndex(where:)` returns the first index whose element satisfies the predicate, or none exactly when no element does |
| Search.First | Sources/TrackEditor/LanePreference.swift:43 | `first(where:)` returns an element satisfying the predicate with none before it, or none exactly when no element does |
| Search.FirstIndexFinds | Sources/TrackEditor/LanePreference.swift:47 | whenever some element satisfies the predicate, the search finds an index no later than it |
| LaneRegioning.Insert | Sources/TrackEditor/Arrange.swift:35 | inserting into a sequence sorted by start keeps it sorted and adds exactly that element |
| LaneRegioning.SortByStart | Sources/TrackEditor/Arrange.swift:35 | `sorted(by:)` on start returns a sequence sorted by start that is a permutation of its input |
| LaneRegioning.SortSortedIsIdentity | Sources/TrackEditor/Arrange.swift:35 | sorting data that is already sorted by start returns it unchanged |
| LaneRegioning.InsertLast | Sources/TrackEditor/Arrange.swift:35 | an element that does not start before the last one is inserted at the end |
| LaneRegioning.IndexOfId | Sources/TrackEditor/Arrange.swift:51 | the id lookup finds the first element with the id, or none exactly when no element has it |
| LaneRegioning.IndexOfOwnId | Sources/TrackEditor/Arrange.swift:51 | with distinct ids, each element is found at its own index |
| LaneRegioning.InsertKeepsDistinct | Sources/TrackEditor/Arrange.swift:35 | inserting an element with a fresh id keeps the ids distinct |
| LaneRegioning.SortKeepsDistinct | Sources/TrackEditor/Arrange.swift:35 | sorting keeps the ids distinct |
| LaneRegioning.TelescopingEdge | Sources/TrackEditor/Arrange.swift:39-44 | when each padding is the gap to the predecessor's end, the paddings and widths before a region add up to its start's distance from the lane start |
| Arrange.SortedData | Sources/TrackEditor/Arrange.swift:34-36 | `sortedData` is sorted by start and is a permutation of `data` |
| Arrange.PrevEnd | Sources/TrackEditor/Arrange.swift:53-54 | the predecessor end used is never below the lane start; it is the lane start for the first element and the predecessor's end whenever that is not below the lane start |
| Arrange.Position | Sources/TrackEditor/Arrange.swift:48-59 | for an element found by id, the width is non-negative when it ends after it starts, and the clamp bounds the padding by the start's distance from the lane start |
| Arrange.Layout | Sources/TrackEditor/Arrange.swift:38-45 | the body lays out one placement per sorted element |
| Arrange.PositionAt | Sources/TrackEditor/Arrange.swift:48-59 | the i-th placement is that element's `position`: width `(end − start) × barWidth` and padding from the clamped predecessor end |
| Arrange.WidthIsLength | Sources/TrackEditor/Arrange.swift:58 | every element of `data` is found by its id, and its width is its length in bars times the bar width |
| Arrange.FirstPadding | Sources/TrackEditor/Arrange.swift:52-57 | the first element's padding is its start's distance from the lane start, in pixels |
| Arrange.OverlapGivesNegativePadding | Sources/TrackEditor/Arrange.swift:54-57 | a region starting before its predecessor ends gets a negative padding; nothing prevents the overlap |
| Arrange.LayoutTelescopes | Sources/TrackEditor/Arrange.swift:39-58 | with distinct ids and every end at or after the lane start, each padding is the gap to the predecessor's end |
| Arrange.LayoutEdge | Sources/TrackEditor/Arrange.swift:39-58 | in such a layout every region's leading edge is its start's distance from the lane start |
| Arrange.LandsAtAbsoluteBars | Sources/TrackEditor/Arrange.swift:39-58 | regions with distinct ids ending at or after the lane start each land at their absolute bar |
| Arrange.SortedLayoutLandsAtAbsoluteBars | Sources/TrackEditor/Arrange.swift:34-58 | the same holds for the layout of `sortedData` |
| Arrange.SortKeepsEndsAbove | Sources/TrackEditor/Arrange.swift:34-36 | sorting keeps every end at or after the lane start |
| Arrange.ClampMisplacesAfterEarlyRegion | Sources/TrackEditor/Arrange.swift:53-57 | in any layout arranged as `position` places it, after a region that ends before the lane start the next region's padding is measured from the lane start, so its edge advances by less than the distance between the two starts and it lands short of its bar |
| Arrange.LayoutArranged | Sources/TrackEditor/Arrange.swift:38-59 | with distinct ids the layout is arranged: each placement is its element's length and its gap from the clamped predecessor end, times the bar width |
| EqualParts.Width | Sources/TrackEditor/EqualParts.swift:28-30 | `number` columns of the part width span the lane range exactly |
| EqualParts.Parts | Sources/TrackEditor/EqualParts.swift:32-36 | there are exactly `number` parts, indexed `0..<number`, all of the same width |
| EqualParts.TotalOfEqual | Sources/TrackEditor/EqualParts.swift:33-35 | parts of one width total their count times that width |
| EqualParts.PartsFillRange | Sources/TrackEditor/EqualParts.swift:28-35 | for a positive `number`, the parts fill `(upper − lower) × barWidth` |
| Lane.TrackEditorAreaWidth | Sources/TrackEditor/Lane.swift:53 | the editor area is never negative for a valid lane range and a non-negative bar width |
| Lane.RowWidth | Sources/TrackEditor/Lane.swift:108 | for a valid lane range and a non-negative bar width the row is at least as wide as the header |
| Lane.RegionsFitInArea | Sources/TrackEditor/Lane.swift:53 | with distinct ids, a region inside the lane range is drawn inside the editor area: its leading edge is not negative and its trailing edge is not past `trackEditorAreaWidth` |
| Lane.RegionsFitInRow | Sources/TrackEditor/Lane.swift:108 | such a region is drawn right of the header and ends no later than the row's frame width |
| Lane.PartsFillEditorArea | Sources/TrackEditor/Lane.swift:209-217 | this revision's `EqualParts` columns fill the lane's editor area exactly |
| Lane.SortedData | Sources/TrackEditor/Lane.swift:162-164 | `sortedData` is sorted by start and is a permutation of `data` |
| Lane.Position | Sources/TrackEditor/Lane.swift:177-188 | the width is non-negative for a region ending after it starts; a region starting before its sorted predecessor's end gets a negative padding |
| Lane.Layout | Sources/TrackEditor/Lane.swift:166-174 | one placement per sorted region |
| Lane.PositionAt | Sources/TrackEditor/Lane.swift:177-187 | the i-th placement has width `(end − start) × barWidth` and padding from the unclamped predecessor end |
| Lane.WidthIsLength | Sources/TrackEditor/Lane.swift:186 | with distinct ids the width is the region's length in bars times the bar width |
| Lane.FirstPadding | Sources/TrackEditor/Lane.swift:182-185 | the first region's padding is its start's distance from the lane start |
| Lane.OverlapGivesNegativePadding | Sources/TrackEditor/Lane.swift:182-185 | a region starting before its predecessor ends gets a negative padding |
| Lane.LayoutTelescopes | Sources/TrackEditor/Lane.swift:166-187 | with distinct ids each padding is the gap to the predecessor's end, with no further condition |
| Lane.LayoutEdge | Sources/TrackEditor/Lane.swift:166-187 | in such a layout every leading edge is the start's distance from the lane start |
| Lane.LandsAtAbsoluteBars | Sources/TrackEditor/Lane.swift:166-187 | with distinct ids every region lands at its absolute bar |
| Lane.RegionEntries | Sources/TrackEditor/Lane.swift:172 | one registry entry per sorted region, in order, carrying the region's id, the enclosing lane's id and its rect |
| Lane.FlattenSingletons | Sources/TrackEditor/Lane.swift:110-111 | folding one-entry preference values yields those entries in order |
| Lane.LaneEntryOwnsItsRegions | Sources/TrackEditor/Lane.swift:110-111 | the lane entry carries the lane's id and bounds and exactly its own region entries, in sorted order, each tagged with the lane's id; a region id is found in it exactly when one of its regions has that id |
| TrackLane.TrackEditorAreaWidth | Sources/TrackEditor/TrackLane.swift:28 | the editor area is non-negative for a valid lane range |
| TrackLane.SortedData | Sources/TrackEditor/TrackLane.swift:32-34 | `sortedData` is sorted by start and is a permutation of `data` |
| TrackLane.MemberwiseIsEquivalence | Sources/TrackEditor/TrackLane.swift:63 | the synthesised memberwise `==` is an equivalence, so it is one of the equalities the lemmas below cover; they need only reflexivity |
| TrackLane.IndexOf | Sources/TrackEditor/TrackLane.swift:63 | `firstIndex(of:)` under the client's `==` finds the first element equal to the region, or none exactly when no element is |
| TrackLane.RegionPreference | Sources/TrackEditor/TrackLane.swift:62-71 | for a region present in the data, the width is non-negative when it ends after it starts |
| TrackLane.Layout | Sources/TrackEditor/TrackLane.swift:80-89 | one placement per sorted region |
| TrackLane.LayoutPrefixAt | Sources/TrackEditor/TrackLane.swift:80-89 | for a reflexive `==`, the k-th placement of the layout is the one `regionPreference` gives the k-th sorted region |
| TrackLane.IndexOfOwn | Sources/TrackEditor/TrackLane.swift:63 | without duplicates, each region is found at its own index |
| TrackLane.PlacementAt | Sources/TrackEditor/TrackLane.swift:62-70 | for a reflexive `==`, when the i-th region is first found at index `at`, its placement has width `(end − start) × barWidth` and padding from the end of the region before `at`, or from the lane start when `at` is 0 |
| TrackLane.FirstPadding | Sources/TrackEditor/TrackLane.swift:65-69 | the first region's padding is its start's distance from the lane start, and its width is its length |
| TrackLane.LaterPadding | Sources/TrackEditor/TrackLane.swift:65-69 | a later region's padding is its unclamped gap to the previous sorted region's end, zero for adjacent regions |
| TrackLane.DuplicateTakesFirstPlacement | Sources/TrackEditor/TrackLane.swift:63-65 | a region equal to an earlier one gets exactly the earlier one's placement |
| TrackLane.DuplicateIsMisplaced | Sources/TrackEditor/TrackLane.swift:63-68 | with a region listed twice, the second copy lands past the first copy's end, off its own bar whenever the region ends after the lane start |
| TrackLane.LayoutTelescopes | Sources/TrackEditor/TrackLane.swift:83-87 | without duplicates each padding is the gap to the predecessor's end |
| TrackLane.LayoutEdge | Sources/TrackEditor/TrackLane.swift:83-87 | in such a layout every leading edge is the start's distance from the lane start |
| TrackLane.LandsAtAbsoluteBars | Sources/TrackEditor/TrackLane.swift:83-87 | without duplicates every region lands at its absolute bar |
| RegionPlaceholder.Init | Sources/TrackEditor/RegionPlaceholder.swift:31-35 | the placeholder carries the given id, the period and the hide action |
| RegionPlaceholder.StartRegion | Sources/TrackEditor/RegionPlaceholder.swift:44-46 | `startRegion` is a whole bar, the period's lower bound |
| RegionPlaceholder.EndRegion | Sources/TrackEditor/RegionPlaceholder.swift:48-50 | `endRegion` is a whole bar, the period's upper bound |
| RegionPlaceholder.RegioningIsPeriod | Sources/TrackEditor/RegionPlaceholder.swift:44-50 | `startRegion` and `endRegion` do not depend on the lane range or the options, are whole bars, and differ by `period.count`, which is non-negative for a valid period |
| RegionPlaceholder.AsSpan | Sources/TrackEditor/RegionPlaceholder.swift:42-50 | the region a placeholder provides is its id with the period's bounds |
| RegionPlaceholder.ActionLog.constructor | Sources/TrackEditor/RegionPlaceholder.swift:29 | no action has been called yet |
| RegionPlaceholder.ActionLog.Call | Sources/TrackEditor/RegionPlaceholder.swift:20-22 | calling a hide action records exactly one call of it |
| RegionPlaceholder.ActionLog.Hide | Sources/TrackEditor/RegionPlaceholder.swift:37-39 | `hide()` calls the action given at init, once |
| LanePreference.HashOnlyId | Sources/TrackEditor/LanePreference.swift:25-27 | two entries hash alike exactly when their ids agree |
| LanePreference.IndexOf | Sources/TrackEditor/LanePreference.swift:47 | finds the first entry with the id, or none exactly when no entry has it |
| LanePreference.Get | Sources/TrackEditor/LanePreference.swift:42-44 | the getter returns an entry of the registry with the id, or none exactly when no entry has it |
| LanePreference.GetIsIndexOf | Sources/TrackEditor/LanePreference.swift:42-47 | the getter and the setter's index search agree: the getter returns the entry at that index |
| LanePreference.GetFindsMember | Sources/TrackEditor/LanePreference.swift:42-44 | every entry of the registry is found again by its id |
| LanePreference.GetFindsLane | Sources/TrackEditor/LanePreference.swift:42-44 | a lane of the registry is found again by its id |
| LanePreference.GetAfterSet | Sources/TrackEditor/LanePreference.swift:42-50 | after the setter stores a value whose id is the key, the getter returns that value |
| LanePreference.LanePreferenceKey.constructor | Sources/TrackEditor/LanePreference.swift:32 | the default value is empty |
| LanePreference.LanePreferenceKey.Reduce | Sources/TrackEditor/LanePreference.swift:34-36 | `reduce` appends the next value after the existing entries and keeps them as a prefix |
| LanePreference.LanePreferenceArray.constructor | Sources/TrackEditor/LanePreference.swift:39-41 | holds the given entries |
| LanePreference.LanePreferenceArray.Set | Sources/TrackEditor/LanePreference.swift:45-50 | the setter keeps the length; it leaves the array unchanged when given nil or a missing id; otherwise it replaces only the first entry with the id, after which the getter returns the value |
| RegionPreference.HashIgnoresBounds | Sources/TrackEditor/RegionPreference.swift:22-24 | two entries hash alike exactly when their ids agree, whatever their lanes and bounds |
| RegionPreference.Flatten | Sources/TrackEditor/RegionPreference.swift:31-33 | folding no children gives the empty default |
| RegionPreference.FlattenAppend | Sources/TrackEditor/RegionPreference.swift:31-33 | folding two runs of children is the concatenation of their folds |
| RegionPreference.FlattenContains | Sources/TrackEditor/RegionPreference.swift:31-33 | every child's entries appear in the fold, in order, between its siblings' |
| RegionPreference.RegionPreferenceKey.constructor | Sources/TrackEditor/RegionPreference.swift:29 | the default value is empty |
| RegionPreference.RegionPreferenceKey.Reduce | Sources/TrackEditor/RegionPreference.swift:31-33 | `reduce` appends the next value |
| RegionPreference.RegionPreferenceKey.ReduceAll | Sources/TrackEditor/RegionPreference.swift:31-33 | folding `reduce` over the children appends all their entries, in order |
| RegionPreference.RegionWithId | Sources/TrackEditor/Gestures/TrackDragGestureBackground.swift:186 | the id lookup in a lane's regions returns the first of them with that id, or none exactly when none has it |
| RegionPreference.RegionContaining | Sources/TrackEditor/Gestures/TrackDragGestureBackground.swift:156-161 | the first region of the lane, in registry order, whose rect contains the point, or none exactly when no rect does |
| HitTest.LaneAt | Sources/TrackEditor/Gestures/TrackDragGestureBackground.swift:143-152 | `getLanePreference` returns a registry lane containing the point, or nil exactly when no lane rect contains it |
| HitTest.RegionAt | Sources/TrackEditor/Gestures/TrackDragGestureBackground.swift:153-163 | `getRegionPreference` is nil when no lane is hit; in a hit lane it is the first region whose rect contains the point, and any region found is in that lane and contains it |
| HitTest.DropLane | Sources/TrackEditor/Gestures/TrackGestureHandler.swift:77-94 | the release lane is the id of the lane hit at the release point, or the source lane when none is hit |
| HitTest.DropLaneHitsContainingLane | Sources/TrackEditor/Gestures/TrackGestureHandler.swift:77-94 | a release inside lane `i` never falls back: it resolves to a lane at or before `i` that contains the point |
| HitTest.DropLaneIsRegistered | Sources/TrackEditor/Gestures/TrackGestureHandler.swift:77-94 | the drop lane is registered whenever the release is inside a lane or the source lane is registered |
| HitTest.RegionById | Sources/TrackEditor/Gestures/TrackDragGestureBackground.swift:186 | `preferenceValue[laneID]?.regionPreferences[id]` is nil exactly when the lane is unregistered or none of its regions has the id; otherwise it is the first region with that id |
| HitTest.RegionOfRegistryIsPositive | Sources/TrackEditor/Gestures/TrackGestureHandler.swift:59-60 | in a registry of positive widths, every region of a registered lane has a positive width |
| HitTest.RegionAtIsPositive | Sources/TrackEditor/Gestures/TrackGestureHandler.swift:59-60 | every region the hit-test returns has a positive width, as the in-flight period's divisor needs |
| HitTest.RegionByIdIsPositive | Sources/TrackEditor/Gestures/TrackGestureHandler.swift:59-60 | every region the id lookup returns has a positive width |
| Selection.GestureStatesAreFour | Sources/TrackEditor/RegionSelection.swift:11-16 | there are exactly four gesture states |
| Selection.StateHash | Sources/TrackEditor/RegionSelection.swift:54-61 | `State.hash` feeds six coordinates to the hasher |
| Selection.StateHashInjective | Sources/TrackEditor/RegionSelection.swift:54-61 | two states hash alike exactly when their position, size and offset agree |
| Selection.SelectionHash | Sources/TrackEditor/RegionSelection.swift:36-41 | the hash combines nine values: the id first, then the lane id, and the gesture state last |
| Selection.EqualIff | Sources/TrackEditor/RegionSelection.swift:36-45 | `==` holds exactly when the id, the lane id, `changes.after` and the gesture state agree |
| Selection.EqualIgnoresHistory | Sources/TrackEditor/RegionSelection.swift:36-45 | selections differing only in `startState`, `changes.before` and `period` compare equal |
| Selection.GestureStateDistinguishes | Sources/TrackEditor/RegionSelection.swift:40-45 | selections in different gesture states never compare equal |
| Selection.BindingEqualIsEquivalence | Sources/TrackEditor/RegionSelection.swift:65-69 | binding equality is reflexive, symmetric and transitive, and never identifies nil with a selection |
| Selection.BindingEqualSome | Sources/TrackEditor/RegionSelection.swift:65-69 | two bindings holding selections compare equal exactly when the selections do |
| TrackEditorGestureState.DerivedProperties | Sources/TrackEditor/TrackEditorGestureState.swift:17-51 | `translation` and `startLocation` are the payload while dragging and zero otherwise; `isActive` is false only for `inactive`; `isDragging` only for `dragging` and implies `isActive` |
| TrackEditorGestureState.NonZeroIsDragging | Sources/TrackEditor/TrackEditorGestureState.swift:17-33 | a state with a non-zero translation or start location is a drag |
| FrameBackground.DerivedProperties | Sources/TrackEditor/FrameBackground.swift:17-42 | `translation` is zero unless dragging; `isActive` exactly when not `inactive`; `isDragging` exactly when `dragging`, and it implies `isActive` |
| FrameBackground.UpdatedState | Sources/TrackEditor/FrameBackground.swift:62-76 | `.first(true)` is active but not dragging; `.second(true, drag)` drags with the drag's translation or zero; every other value is inactive |
| FrameBackground.FrameBackground.constructor | Sources/TrackEditor/FrameBackground.swift:45-56 | the state starts inactive with the placeholder label |
| FrameBackground.FrameBackground.Updating | Sources/TrackEditor/FrameBackground.swift:62-76 | `updating` assigns the mapped state; it sets the label for a pressed value and leaves it alone otherwise |
| FrameBackground.FrameBackground.OnEnded | Sources/TrackEditor/FrameBackground.swift:77-82 | `onEnded` ignores every value except `.second(true, some drag)`, which reaches only the label |
| TrackGestureHandler.MakeRegionSelection | Sources/TrackEditor/Gestures/TrackGestureHandler.swift:36-49 | nil exactly when the address's lane is not registered; otherwise a focused selection in that lane, `count × barWidth` by `trackHeight`, no offset, `before == after`, leading edge at the address's bars from the lane start, centre y the lane's midY, period the address's range, `startState` inherited |
| TrackGestureHandler.Apply | Sources/TrackEditor/Gestures/TrackGestureHandler.swift:84-87 | the move action performs nothing exactly when the lane is missing, and otherwise a focused selection of the captured region in the address's lane |
| TrackGestureHandler.DragChanged | Sources/TrackEditor/Gestures/TrackGestureHandler.swift:55-67 | a dragging selection showing the untranslated frame with the translation as offset; `startState` and `changes.before` are carried from the prior selection; the period is the in-flight period |
| TrackGestureHandler.DragRange | Sources/TrackEditor/Gestures/TrackGestureHandler.swift:71-76 | the clamp keeps the lower bound at or above the lane start; the range is valid, and its lower bound is within half a bar of the clamped x |
| TrackGestureHandler.WholeBarsGiveWholeRange | Sources/TrackEditor/Gestures/TrackGestureHandler.swift:71-76 | a frame exactly `k` bars wide resolves to exactly `k` bars, wherever it is dropped |
| TrackGestureHandler.DragEnded | Sources/TrackEditor/Gestures/TrackGestureHandler.swift:69-105 | the address is the drop lane with the drag range; the pair goes to the host exactly when a callback is set, and is otherwise applied at once to the same address |
| TrackGestureHandler.DeferredEqualsImmediate | Sources/TrackEditor/Gestures/TrackGestureHandler.swift:88-92 | a host that runs the action it received at its address commits exactly what the handler commits without a callback |
| TrackGestureHandler.SelectionIgnoresCallback | Sources/TrackEditor/Gestures/TrackGestureHandler.swift:36-49 | the committed selection does not depend on whether a callback is set |
| TrackGestureHandler.CommitThenResolve | Sources/TrackEditor/Gestures/TrackGestureHandler.swift:42-48 | releasing a committed selection where it stands resolves to the address it was committed at |
| TrackGestureHandler.EdgeDragChanged | Sources/TrackEditor/Gestures/TrackGestureHandler.swift:107-116 | an edge-dragging selection showing the frame with zero offset; the prior `startState` and `before` are kept; the period is `period(for:)` of the frame |
| TrackGestureHandler.EdgeRange | Sources/TrackEditor/Gestures/TrackGestureHandler.swift:119-121 | the edge-release range is the shown period moved by the lane start |
| TrackGestureHandler.EdgeRangeAtLeastOneBar | Sources/TrackEditor/Gestures/TrackGestureHandler.swift:119-121 | a frame at least one bar wide commits at least one bar |
| TrackGestureHandler.EdgeDragEnded | Sources/TrackEditor/Gestures/TrackGestureHandler.swift:118-132 | the address keeps the source lane, with no new hit-test; host or immediate application as for a move |
| TrackGestureHandler.EdgeReleaseCommitsShownPeriod | Sources/TrackEditor/Gestures/TrackGestureHandler.swift:118-132 | without a callback, an edge release in a registered lane commits, focused, the period shown during the drag moved by the lane start |
| LaneDragGestureHandler.DragChanged | Sources/TrackEditor/Gestures/LaneDragGestureHandler.swift:36-47 | a dragging record showing the untranslated frame with the translation as offset; `startState` is carried over; the period is the in-flight period |
| LaneDragGestureHandler.ReleaseRange | Sources/TrackEditor/Gestures/LaneDragGestureHandler.swift:50-54 | with neither clamp nor lane offset, each bound is within half a bar of the translated edge in bars |
| LaneDragGestureHandler.WholeBarsRightOfHeader | Sources/TrackEditor/Gestures/LaneDragGestureHandler.swift:50-54 | dropped right of the header, a frame `k` bars wide resolves to `k` bars |
| LaneDragGestureHandler.OneBarStraddlingHeaderSpansTwo | Sources/TrackEditor/Gestures/LaneDragGestureHandler.swift:51-53 | without the clamp, a one-bar frame half a bar left of the header resolves to the two bars `-1 ..< 1` |
| LaneDragGestureHandler.Apply | Sources/TrackEditor/Gestures/LaneDragGestureHandler.swift:62-77 | nothing exactly when the lane is missing; otherwise a focused record `count × barWidth` by `trackHeight`, zero offset, leading edge at the address's bars from the lane start, centre y the lane's midY plus the ruler height |
| LaneDragGestureHandler.DragEnded | Sources/TrackEditor/Gestures/LaneDragGestureHandler.swift:49-107 | the drop lane with the release range; to the host when a callback is set, otherwise applied at once |
| LaneDragGestureHandler.ResolveShiftsByLaneStart | Sources/TrackEditor/Gestures/LaneDragGestureHandler.swift:51-75 | releasing a committed record where it stands resolves to its address moved left by the lane start |
| RegionDragGestureHandler.DragChanged | Sources/TrackEditor/Gestures/RegionDragGestureHandler.swift:27-34 | the in-flight callback gets the untranslated frame, the raw translation and the period in frame widths |
| RegionDragGestureHandler.Apply | Sources/TrackEditor/Gestures/RegionDragGestureHandler.swift:49-60 | nothing exactly when the lane is missing; otherwise a focused selection with zero offset, `count × barWidth` by `trackHeight`, centre y the lane's midY plus the ruler height |
| RegionDragGestureHandler.DragEnded | Sources/TrackEditor/Gestures/RegionDragGestureHandler.swift:36-87 | the drop lane with the unclamped release range; to the host when a callback is set, otherwise applied at once |
| RegionDragGestureHandler.SameAddressAsLaneDrag | Sources/TrackEditor/Gestures/RegionDragGestureHandler.swift:37-48 | this resolver and the lane resolver give every release the same address and the same host decision |
| RegionDragGestureHandler.SameCommitAsLaneDrag | Sources/TrackEditor/Gestures/RegionDragGestureHandler.swift:49-60 | the two resolvers' actions commit the same id, lane, geometry and period |
| TrackModel.PointerRange | Sources/TrackEditor/TrackModel.swift:21-24 | the range is the bar cell centred on the pointer, `round(bars − ½) ..< round(bars + ½)` |
| TrackModel.OneBarRightOfHeader | Sources/TrackEditor/TrackModel.swift:21-24 | right of the header the range is exactly one bar and contains the pointer |
| TrackModel.AtHeaderEdgeSpansTwo | Sources/TrackEditor/TrackModel.swift:22-23 | exactly on the header's edge the range is `-1 ..< 1`, two bars |
| TrackModel.Apply | Sources/TrackEditor/TrackModel.swift:33-43 | nothing exactly when the lane is missing; otherwise a focused selection whose position is the leading edge of the address's bars, at the lane's midY |
| TrackModel.DragEnded | Sources/TrackEditor/TrackModel.swift:17-48 | something reaches the host exactly when a lane contains the release point and a callback is set; nothing is ever applied without one |
| TrackModel.HostCommitsOneBar | Sources/TrackEditor/TrackModel.swift:17-48 | a host running the action it got commits one bar in the lane that was hit |
| EditingGesture.ReleaseFrame | Sources/TrackEditor/Gestures/RegionLongPressDragGestureOverlay.swift:59-61 | the released frame keeps its size, sits on the bar and track grid, and is within half a cell of the translated frame |
| EditingGesture.ReleaseFrameIdempotent | Sources/TrackEditor/Gestures/RegionLongPressDragGestureOverlay.swift:59-61 | releasing a settled frame with no translation leaves it where it is |
| EditingGesture.ReleasePeriodStartsOnBar | Sources/TrackEditor/RegionLongPressDragGesture.swift:56-60 | the settled frame's period starts on a whole bar, its x in bars |
| EditingGesture.SettledPeriodSpansWidth | Sources/TrackEditor/RegionDragGestureOverlay.swift:43-47 | a settled frame `n` bars wide has a period of exactly `n` bars |
| EditingGesture.SettleInPlace | Sources/TrackEditor/RegionLongPressDragGesture.swift:56-58 | moving the frame, then assigning `origin.x` and then `origin.y`, gives the released frame |
| TrackDragGestureBackground.StartFrame | Sources/TrackEditor/Gestures/TrackDragGestureBackground.swift:196-198 | the default frame has the given size and, one bar by one track, is centred on the start location |
| TrackDragGestureBackground.ContinuingFrameSource | Sources/TrackEditor/Gestures/TrackDragGestureBackground.swift:183-188 | a continuing gesture is shown at the bounds of a region of its lane with the selected id when one is registered, else at the start frame with the selection's size |
| TrackDragGestureBackground.ReleaseFrame | Sources/TrackEditor/Gestures/TrackDragGestureBackground.swift:211 | the release frame is the start frame with the selection's size moved down by half a track, so a one-bar frame is centred on the start x |
| TrackDragGestureBackground.ContinuingFrameIsPositive | Sources/TrackEditor/Gestures/TrackDragGestureBackground.swift:183-188 | the frame of a continuing gesture keeps a positive width |
| TrackDragGestureBackground.Changed | Sources/TrackEditor/Gestures/TrackDragGestureBackground.swift:180-208 | a continuing gesture keeps its id, lane, `startState` and `before`; a new gesture outside every lane changes nothing; a new one in a lane drags in that lane, with no id at the start location or with the id of the region hit |
| TrackDragGestureBackground.Released | Sources/TrackEditor/Gestures/TrackDragGestureBackground.swift:209-217 | a release goes through the resolver exactly for a continuing gesture, addressed to the drop lane of the selection's lane and to the drag range of the release frame, and to the host exactly when a callback is set |
| TrackDragGestureBackground.EndedSelection | Sources/TrackEditor/Gestures/TrackDragGestureBackground.swift:209-221 | with no continuing gesture the selection becomes nil; with a callback it stays as it was; without one it stays when the drop lane is unregistered, and otherwise becomes focused in the drop lane with the same region and start state, spanning the release range |
| TrackDragGestureBackground.HostPart | Sources/TrackEditor/Gestures/TrackDragGestureBackground.swift:212-213 | the host receives the pair exactly for a continuing gesture with a callback set |
| TrackDragGestureBackground.PressDragReleaseCommits | Sources/TrackEditor/Gestures/TrackDragGestureBackground.swift:180-221 | a press over a lane, a drag and a release with no callback end in a focused selection of the region pressed (or none), in the release's drop lane |
| TrackDragGestureBackground.PressDragReleaseDefers | Sources/TrackEditor/Gestures/TrackDragGestureBackground.swift:180-221 | with a callback the dragging selection stays put, and the action handed over commits it focused when run |
| TrackDragGestureBackground.TrackDragGestureBackground.constructor | Sources/TrackEditor/Gestures/TrackDragGestureBackground.swift:119-141 | holds the environment and the selection binding |
| TrackDragGestureBackground.TrackDragGestureBackground.Tap | Sources/TrackEditor/Gestures/TrackDragGestureBackground.swift:171-177 | the tap callback, when set, receives the current selection; the selection is unchanged |
| TrackDragGestureBackground.TrackDragGestureBackground.OnChanged | Sources/TrackEditor/Gestures/TrackDragGestureBackground.swift:180-208 | the closure leaves the selection that `Changed` describes |
| TrackDragGestureBackground.TrackDragGestureBackground.OnEnded | Sources/TrackEditor/Gestures/TrackDragGestureBackground.swift:209-221 | the closure leaves the selection `EndedSelection` describes and hands the host what `HostPart` describes |
| TrackDragGestureBackground.TrackDragGestureBackground.HostApply | Sources/TrackEditor/Gestures/TrackDragGestureBackground.swift:213-216 | running the handed action writes its selection, or nothing when its lane is missing |
| TrackDragGesture.TrackDragGesture.constructor | Sources/TrackEditor/Gestures/TrackDragGesture.swift:10-30 | holds the environment and the selection binding |
| TrackDragGesture.TrackDragGesture.OnChanged | Sources/TrackEditor/Gestures/TrackDragGesture.swift:58-86 | the gesture's `onChanged` leaves the same selection as the background's |
| TrackDragGesture.TrackDragGesture.OnEnded | Sources/TrackEditor/Gestures/TrackDragGesture.swift:87-99 | the gesture's `onEnded` leaves the same selection and hands over the same pair as the background's |
| TrackDragGesture.TrackDragGesture.HostApply | Sources/TrackEditor/Gestures/TrackDragGesture.swift:91-95 | running the handed action writes its selection, or nothing when its lane is missing |
| LaneDragGestureBackground.RegionFrame | Sources/TrackEditor/Gestures/LaneDragGestureBackground.swift:73 | a region's frame is its bounds moved down by the ruler height |
| LaneDragGestureBackground.StartFrame | Sources/TrackEditor/Gestures/LaneDragGestureBackground.swift:81 | the default frame starts half a bar left of the start location, at its y; one bar by one track, it is centred half a track below the start |
| LaneDragGestureBackground.ContinuingFrameSource | Sources/TrackEditor/Gestures/LaneDragGestureBackground.swift:71-74 | a continuing gesture is shown at a registered region of this lane with the selected id, moved down by the ruler, else at the start frame with the selection's size |
| LaneDragGestureBackground.ContinuingFrameIsPositive | Sources/TrackEditor/Gestures/LaneDragGestureBackground.swift:71-74 | the frame of a continuing gesture keeps a positive width |
| LaneDragGestureBackground.Changed | Sources/TrackEditor/Gestures/LaneDragGestureBackground.swift:69-91 | always a dragging selection in this view's lane with the translation as offset; a continuing gesture keeps its id; a new one takes the region hit (with its shifted frame) or none (with the default frame) |
| LaneDragGestureBackground.ReleaseFrame | Sources/TrackEditor/Gestures/LaneDragGestureBackground.swift:94 | the release frame is one bar by one track, centred on the start location |
| LaneDragGestureBackground.Released | Sources/TrackEditor/Gestures/LaneDragGestureBackground.swift:93-100 | a release goes through the resolver exactly for a continuing gesture, at the drop lane and the release range of the release frame |
| LaneDragGestureBackground.EndedSelection | Sources/TrackEditor/Gestures/LaneDragGestureBackground.swift:92-104 | with no continuing gesture the selection becomes nil; with a callback it stays as it was; without one it stays when the drop lane is unregistered, and otherwise becomes focused and unoffset in the drop lane with the same region, spanning the release range |
| LaneDragGestureBackground.HostPart | Sources/TrackEditor/Gestures/LaneDragGestureBackground.swift:95-100 | the host receives the pair exactly for a continuing gesture with a callback set |
| LaneDragGestureBackground.ReleaseIsOneBar | Sources/TrackEditor/Gestures/LaneDragGestureBackground.swift:94-96 | a release frame landing right of the header resolves to exactly one bar |
| LaneDragGestureBackground.PressDragReleaseCommits | Sources/TrackEditor/Gestures/LaneDragGestureBackground.swift:69-104 | a drag and a release with no callback end in a focused, unoffset, one-track-high selection of the region pressed (or none) in the drop lane |
| LaneDragGestureBackground.PressDragReleaseIsOneBar | Sources/TrackEditor/Gestures/LaneDragGestureBackground.swift:92-104 | that commit is one bar wide when dropped right of the header |
| LaneDragGestureBackground.PressDragReleaseDefers | Sources/TrackEditor/Gestures/LaneDragGestureBackground.swift:69-104 | with a callback the dragging selection stays put, and the action handed over commits it focused when run |
| LaneDragGestureBackground.LaneDragGestureBackground.constructor | Sources/TrackEditor/Gestures/LaneDragGestureBackground.swift:30-32 | holds the environment and the selection binding |
| LaneDragGestureBackground.LaneDragGestureBackground.Tap | Sources/TrackEditor/Gestures/LaneDragGestureBackground.swift:62-66 | a tap leaves no selection |
| LaneDragGestureBackground.LaneDragGestureBackground.OnChanged | Sources/TrackEditor/Gestures/LaneDragGestureBackground.swift:69-91 | the closure leaves the selection that `Changed` describes |
| LaneDragGestureBackground.LaneDragGestureBackground.OnEnded | Sources/TrackEditor/Gestures/LaneDragGestureBackground.swift:92-104 | the closure leaves the selection `EndedSelection` describes and hands the host what `HostPart` describes |
| LaneDragGestureBackground.LaneDragGestureBackground.HostApply | Sources/TrackEditor/Gestures/LaneDragGestureBackground.swift:96-99 | running the handed action writes its selection, or nothing when its lane is missing |
| RegionEdgeDragGestureOverlay.EdgeFrame | Sources/TrackEditor/Gestures/RegionEdgeDragGestureOverlay.swift:41-45 | the resized frame keeps `before`'s leading edge, top and height; its width is `before.width + dx`, but never below one bar |
| RegionEdgeDragGestureOverlay.EdgeFrameMonotone | Sources/TrackEditor/Gestures/RegionEdgeDragGestureOverlay.swift:44 | a wider drag never gives a narrower frame, and never moves the leading edge |
| RegionEdgeDragGestureOverlay.Changed | Sources/TrackEditor/Gestures/RegionEdgeDragGestureOverlay.swift:40-52 | nothing without a selection; otherwise an edge-dragging selection of the overlay's region and lane that keeps the history, shows the resized frame with no offset and its period |
| RegionEdgeDragGestureOverlay.ShownPeriodKeepsStart | Sources/TrackEditor/Gestures/RegionEdgeDragGestureOverlay.swift:41-45 | however far the edge is dragged, the period shown keeps its start |
| RegionEdgeDragGestureOverlay.ResizeDoesNotAccumulate | Sources/TrackEditor/Gestures/RegionEdgeDragGestureOverlay.swift:41-45 | resizing again from a resized selection resizes from the same `before` |
| RegionEdgeDragGestureOverlay.Released | Sources/TrackEditor/Gestures/RegionEdgeDragGestureOverlay.swift:53-64 | a release goes through the resolver exactly with a selection, at the overlay's lane, and spans at least one bar |
| RegionEdgeDragGestureOverlay.EndedSelection | Sources/TrackEditor/Gestures/RegionEdgeDragGestureOverlay.swift:53-64 | with a callback the selection is unchanged; without one, in a registered lane, it becomes focused on the overlay's region and lane |
| RegionEdgeDragGestureOverlay.HostPart | Sources/TrackEditor/Gestures/RegionEdgeDragGestureOverlay.swift:59-60 | the host receives the pair exactly with a selection and a callback set |
| RegionEdgeDragGestureOverlay.ReleaseCommitsShownPeriod | Sources/TrackEditor/Gestures/RegionEdgeDragGestureOverlay.swift:40-64 | dragging and releasing with no callback commits the period shown during the drag, moved by the lane start |
| RegionEdgeDragGestureOverlay.RegionEdgeDragGestureOverlay.constructor | Sources/TrackEditor/Gestures/RegionEdgeDragGestureOverlay.swift:26-31 | holds the view and the selection binding |
| RegionEdgeDragGestureOverlay.RegionEdgeDragGestureOverlay.OnChanged | Sources/TrackEditor/Gestures/RegionEdgeDragGestureOverlay.swift:40-52 | the closure leaves the selection that `Changed` describes |
| RegionEdgeDragGestureOverlay.RegionEdgeDragGestureOverlay.OnEnded | Sources/TrackEditor/Gestures/RegionEdgeDragGestureOverlay.swift:53-65 | the closure leaves the selection `EndedSelection` describes and hands the host what `HostPart` describes |
| RegionEdgeDragGestureOverlay.RegionEdgeDragGestureOverlay.HostApply | Sources/TrackEditor/Gestures/RegionEdgeDragGestureOverlay.swift:60-63 | running the handed action writes its selection, or nothing when its lane is missing |
| RegionLongPressDragGestureOverlay.Changed | Sources/TrackEditor/Gestures/RegionLongPressDragGestureOverlay.swift:37-55 | a focused selection is left alone; `.second(true, nil)` shows the region pressing on its frame, `.second(true, drag)` dragging on the moved frame; anything else changes nothing; the id and size are the view's |
| RegionLongPressDragGestureOverlay.Ended | Sources/TrackEditor/Gestures/RegionLongPressDragGestureOverlay.swift:56-70 | releasing while focused clears the selection; a confirmed press-and-drag settles focused on the released frame; any other release changes nothing |
| RegionLongPressDragGestureOverlay.ReleaseSettlesOnGrid | Sources/TrackEditor/Gestures/RegionLongPressDragGestureOverlay.swift:59-65 | the settled selection keeps its size, sits on the bar and track grid within half a bar of the predicted position, and its period starts on that bar |
| RegionLongPressDragGestureOverlay.PressDragReleaseThenRelease | Sources/TrackEditor/Gestures/RegionLongPressDragGestureOverlay.swift:37-70 | press, drag and release go pressing, dragging, focused with the same id and size; releasing again clears the selection |
| RegionLongPressDragGestureOverlay.RegionLongPressDragGestureOverlay.constructor | Sources/TrackEditor/Gestures/RegionLongPressDragGestureOverlay.swift:16-31 | holds the view and the selection binding |
| RegionLongPressDragGestureOverlay.RegionLongPressDragGestureOverlay.OnChanged | Sources/TrackEditor/Gestures/RegionLongPressDragGestureOverlay.swift:37-55 | the closure leaves the selection that `Changed` describes |
| RegionLongPressDragGestureOverlay.RegionLongPressDragGestureOverlay.OnEnded | Sources/TrackEditor/Gestures/RegionLongPressDragGestureOverlay.swift:56-70 | the closure, snapping the frame in place, leaves the selection that `Ended` describes |
| RegionLongPressDragGesture.Changed | Sources/TrackEditor/RegionLongPressDragGesture.swift:37-53 | `.second(true, nil)` shows the region pressing, `.second(true, drag)` dragging on the moved frame; anything else changes nothing |
| RegionLongPressDragGesture.Ended | Sources/TrackEditor/RegionLongPressDragGesture.swift:54-64 | only `.second(true, drag)` changes the selection, settling it focused on the frame released with the predicted end translation |
| RegionLongPressDragGesture.ReleaseStartsOnBar | Sources/TrackEditor/RegionLongPressDragGesture.swift:56-62 | the settled selection is focused, keeps the frame's size, and its period starts on a whole bar, its x in bars |
| RegionLongPressDragGesture.AgreesWithOverlayWhenNotFocused | Sources/TrackEditor/RegionLongPressDragGesture.swift:37-64 | while not focused, this gesture and the overlay view behave identically |
| RegionLongPressDragGesture.DiffersFromOverlayWhenFocused | Sources/TrackEditor/RegionLongPressDragGesture.swift:37-64 | on a focused selection this gesture moves and settles it again, while the overlay leaves it and then clears it |
| RegionLongPressDragGesture.RegionLongPressDragGesture.constructor | Sources/TrackEditor/RegionLongPressDragGesture.swift:16-24 | holds the gesture's id, frame and the selection binding |
| RegionLongPressDragGesture.RegionLongPressDragGesture.OnChanged | Sources/TrackEditor/RegionLongPressDragGesture.swift:37-53 | the closure leaves the selection that `Changed` describes |
| RegionLongPressDragGesture.RegionLongPressDragGesture.OnEnded | Sources/TrackEditor/RegionLongPressDragGesture.swift:54-64 | the closure, snapping the frame in place, leaves the selection that `Ended` describes |
| RegionDragGestureOverlay.Changed | Sources/TrackEditor/RegionDragGestureOverlay.swift:36-41 | dragging, with the view's id and size, at the midpoint of the translated frame, with its period |
| RegionDragGestureOverlay.Ended | Sources/TrackEditor/RegionDragGestureOverlay.swift:42-51 | focused with the measured size, at the centre of the frame released with the predicted end translation |
| RegionDragGestureOverlay.ReleaseKeepsBarCount | Sources/TrackEditor/RegionDragGestureOverlay.swift:43-49 | a frame `n` bars wide settles on a period of exactly `n` whole bars starting at its x in bars |
| RegionDragGestureOverlay.ReleaseNearPrediction | Sources/TrackEditor/RegionDragGestureOverlay.swift:43-49 | the settled centre is within half a bar and half a track of the predicted one |
| RegionDragGestureOverlay.RegionDragGestureOverlay.constructor | Sources/TrackEditor/RegionDragGestureOverlay.swift:16-31 | holds the view and the selection binding |
| RegionDragGestureOverlay.RegionDragGestureOverlay.OnChanged | Sources/TrackEditor/RegionDragGestureOverlay.swift:36-41 | the closure leaves the selection that `Changed` describes |
| RegionDragGestureOverlay.RegionDragGestureOverlay.OnEnded | Sources/TrackEditor/RegionDragGestureOverlay.swift:42-51 | the closure, snapping the frame in place, leaves the selection that `Ended` describes |
| TaggedRegionDragGestureOverlay.Tagged | Sources/TrackEditor/Gestures/RegionDragGestureOverlay.swift:42 | the tagged record carries the tag and the untagged record's id, position and size |
| TaggedRegionDragGestureOverlay.Changed | Sources/TrackEditor/Gestures/RegionDragGestureOverlay.swift:38-43 | dragging, with the view's id, tag and size, at the midpoint of the translated frame |
| TaggedRegionDragGestureOverlay.Ended | Sources/TrackEditor/Gestures/RegionDragGestureOverlay.swift:44-53 | focused, with id, tag and size kept, at the centre of the released frame |
| TaggedRegionDragGestureOverlay.AgreesWithUntagged | Sources/TrackEditor/Gestures/RegionDragGestureOverlay.swift:38-53 | the tagged view does what the untagged one does, with the tag added |
| TaggedRegionDragGestureOverlay.ReleaseStartsOnBar | Sources/TrackEditor/Gestures/RegionDragGestureOverlay.swift:45-51 | after snapping, the period starts on a whole bar, the frame's x in bars |
| TaggedRegionDragGestureOverlay.TaggedRegionDragGestureOverlay.constructor | Sources/TrackEditor/Gestures/RegionDragGestureOverlay.swift:16-33 | holds the view and the selection binding |
| TaggedRegionDragGestureOverlay.TaggedRegionDragGestureOverlay.OnChanged | Sources/TrackEditor/Gestures/RegionDragGestureOverlay.swift:38-43 | the closure leaves the selection that `Changed` describes |
| TaggedRegionDragGestureOverlay.TaggedRegionDragGestureOverlay.OnEnded | Sources/TrackEditor/Gestures/RegionDragGestureOverlay.swift:44-53 | the closure, snapping the frame in place, leaves the selection that `Ended` describes |
| TrackLaneDragGestureBackground.StartFrame | Sources/TrackEditor/TrackLaneDragGestureBackground.swift:38 | one bar by one track, starting half a bar left of the start location |
| TrackLaneDragGestureBackground.Changed | Sources/TrackEditor/TrackLaneDragGestureBackground.swift:37-42 | dragging with no id, one bar by one track, at the centre of the start frame moved by the translation |
| TrackLaneDragGestureBackground.Ended | Sources/TrackEditor/TrackLaneDragGestureBackground.swift:43-52 | focused with no id, on the start frame released with the actual (not the predicted) translation |
| TrackLaneDragGestureBackground.ReleaseIsOneBar | Sources/TrackEditor/TrackLaneDragGestureBackground.swift:44-50 | the release commits exactly one whole bar, within half a bar of the dragged frame's x in bars |
| TrackLaneDragGestureBackground.TrackLaneDragGestureBackground.constructor | Sources/TrackEditor/TrackLaneDragGestureBackground.swift:10-16 | holds the options and the selection binding |
| TrackLaneDragGestureBackground.TrackLaneDragGestureBackground.Tap | Sources/TrackEditor/TrackLaneDragGestureBackground.swift:30-34 | a tap leaves no selection |
| TrackLaneDragGestureBackground.TrackLaneDragGestureBackground.OnChanged | Sources/TrackEditor/TrackLaneDragGestureBackground.swift:37-42 | the closure leaves the selection that `Changed` describes |
| TrackLaneDragGestureBackground.TrackLaneDragGestureBackground.OnEnded | Sources/TrackEditor/TrackLaneDragGestureBackground.swift:43-52 | the closure, snapping the frame in place, leaves the selection that `Ended` describes |

## Left out

- View composition, layout containers, environment keys, animations (`withAnimation`, `interactiveSpring`) and gesture-recogniser timing (the long-press duration and `minimumDistance`) are not modelled. A gesture value is a plain record of start location, location, translation and predicted end translation. The long-press phase is a datatype.
- IEEE floating point is not modelled: coordinates are `real`. The options require `barWidth > 0` and `trackHeight > 0`. Frames divided by their own width are required to be positively wide: a registry whose regions have positive widths (`HitTest.PositiveWidths`) and a selection of positive width (`Resumable`).
- `GeometryProxy` anchor resolution is not modelled: a `bounds` anchor is the rect it resolves to.
- The `onTrackDragGestureChanged` and `onRegionDragGestureChanged` callbacks are stored but never called by the engine, so they are left out. The host callbacks that are called are modelled as a boolean and a returned hand-off value.
- `print` in `RegionDragGestureHandler` is left out, as it has no effect on the engine's behaviour.
- The `UUID()` ids in `RegionPlaceholder.init` and `Lane.laneID` are taken as parameters, because they are random.
- The label text of `FrameBackground` (`"\(drag)"`) is modelled as a value carrying the drag, because its string formatting is a foreign library's.
- Interval.swift (calendar arithmetic), SelectedRegionPreference.swift and FramePreference.swift (rendering-only preferences), Track.swift, TrackEditor.swift, TrackGrid.swift and Region.swift (view composition and animation) are not part of this model.
- Geometry.Contains: a rect of negative size contains nothing here. `CGRect.contains` standardises such a rect first. The registry's rects have positive widths (`HitTest.PositiveWidths`).
- `Hasher` is taken to be collision-free. A hash is the sequence of values combined into it, so hash equality is equality of those values.
- Swift's `sorted(by:)` is not stable. `SortByStart` is one particular insertion sort, and the contracts state only what every sort satisfies: sorted by start, and a permutation.
- Arrange.swift:43 registers a region under the description of its id (`"\(element.id)"`). The model uses the id itself.
- The region subscript `regionPreferences[id]` is used by the backgrounds but is not defined in the repository. It is modelled as the first region with that id (`RegionPreference.RegionWithId`).
- Several call sites do not match the declarations they call, and the model does not reconcile them:
  - `LaneDragGestureBackground` calls `LaneDragGestureHandler` with the closure signature and record shape of `RegionDragGestureHandler`. It is modelled with `RegionDragGestureHandler`.
  - `RegionEdgeDragGestureOverlay` calls `onEdgeDragGestureChanged`/`onEdgeDragGestureEnded` on `LaneDragGestureHandler`, which exists only on `TrackGestureHandler`. It is modelled with the `TrackGestureHandler` functions.
  - The `RegionSelection` shapes these callers build, `(id, laneID, startState, currentState, period, gestureState)` and `(id, laneID, position, size, offset, period, state)`, are the records `Selection.CurrentSelection` and `Selection.PlacedSelection`.
- The two files that declare `struct RegionDragGestureOverlay` are separate modules: `RegionDragGestureOverlay` for the untagged root file, and `TaggedRegionDragGestureOverlay` for the tagged one in Gestures/.
- TrackDragGesture.TrackDragGesture: its closures are proved against the spec functions of `TrackDragGestureBackground`, because they are the same code reading the registry from the model object. The `geometory!` force-unwrap of a missing proxy is not modelled.
- RegionEdgeDragGestureOverlay.RegionEdgeDragGestureOverlay: the closures capture the selection when the body is built. The model uses the current selection, which is the same value as long as the view is rebuilt on every change.
- `period(for:)` in `LaneDragGestureBackground` is never called. It is the same function as `Timeline.PeriodFor`.
- TrackDragGestureBackground.TrackDragGestureBackground.Tap: the tap callback is modelled by returning what it would receive. `TrackGestureHandler.onTapGesture` has an empty body and is left out.
