# Portfolio site core, modelled in Dafny

The portfolio is a Next.js site. Every page sits on an animated star field. The cursor leaves a fading trail. A right-button press opens a radial navigation menu, which a drag gesture steers. The pages are:

- a home page that rotates calm phrases on a timer;
- works and about pages whose active section follows the scroll position;
- a handwritten-digit demo that parses the output of a classifier and shows its convolution layers;
- a contact form with a submission status.

A separate star background scatters a thousand stars by brightness. A server helper picks a background video from a Pexels search.

The model covers the logic behind those features. Each source file has one module:

- `StarFieldFallback` is the canvas star field. It is a class over an array of stars, with an in-place frame update and a lifecycle.
- `StarField` is the physics-engine star field. It models the forces and twinkle handed to the engine.
- `GlobalEffects` covers the trail buffer, the gesture direction, the menu open/close and the trail fading.
- `ContextMenu` covers the item layout, the lookup by direction and the dispatch.
- `DemoPage` covers the log filter, the first-maximum scan, the fallbacks, the request state and the highlight rule.
- `WorksPage`, `AboutPage` and `ScrollSpy` cover the scroll matching, the counter, the media and link choice, and the staggered delays.
- `HomePage` covers the phrase successor and the timer bookkeeping.
- `CnnVisualization`, `StarrySky`, `Pexels` and `ContactPage` cover their own files.

Three helper modules support them. `Wrappers` holds the option type and abstract timer handles. `Text` gives the meaning of the JavaScript string built-ins the pages call. `Motion` holds the random-draw and distance parameters shared by the star fields.

Arithmetic is exact: coordinates and probabilities are reals. Each `Math.random()` draw is a parameter in [0, 1). A `Math.sqrt` distance is a parameter `d >= 0` with `d*d == dx*dx + dy*dy`. Timer and animation-frame ids are abstract handles. Responses, DOM measurements and clocks are parameters.

## Model

| member | source | states |
|---|---|---|
| Motion.ScaledDraw | src/components/StarFieldFallback.tsx:40-41 | a draw in [0, 1) scales a span into [0, span), the basis of every "x in [10, w-10)" seeding bound |
| Motion.AwayFromCursorGeometry | src/components/StarFieldFallback.tsx:81-82 | `(dx/d·f, dy/d·f)` with `d` the true distance is exactly `f` long, a positive multiple of `(dx, dy)`, so it points away from the cursor |
| Motion.Twinkle | src/components/StarFieldFallback.tsx:111-113 | the opacity after the random walk lies in [0.2, 0.8] whatever it was before, equals the unclamped walk when that is in range, and moves by less than 0.004 from an in-range value |
| StarFieldFallback.StarCount | src/components/StarFieldFallback.tsx:37 | the star count lies in [50, 200]; strictly between them it is the floor of area/5000; it is 200 exactly when that floor is at least 200 and 50 exactly when it is at most 50 |
| StarFieldFallback.SeedCoordinate | src/components/StarFieldFallback.tsx:40-41 | for an extent of at least 20 a seeded coordinate is at least 10 from both edges, strictly below extent−10 when the extent exceeds 20 |
| StarFieldFallback.SeedStar | src/components/StarFieldFallback.tsx:40-52 | a star seeded from draws in [0, 1) has size in [0.5, 2), opacity and original opacity in [0.4, 1), both velocities in [−0.05, 0.05) and both coordinates inside the 10-pixel margin |
| StarFieldFallback.PushForce | src/components/StarFieldFallback.tsx:77-80 | inside the push band (0.1, 60) the force lies strictly between 0 and 0.02 |
| StarFieldFallback.PushForceDecreasing | src/components/StarFieldFallback.tsx:80 | the force never grows with the distance |
| StarFieldFallback.PushGeometry | src/components/StarFieldFallback.tsx:79-85 | the velocity change of a push is exactly as long as the force, shorter than 0.02, and points away from the cursor |
| StarFieldFallback.CursorPush | src/components/StarFieldFallback.tsx:74-85 | no push outside the band (0.1, 60); inside it, at the true distance, the velocity change is exactly as long as the force and points away from the cursor |
| StarFieldFallback.Accelerate | src/components/StarFieldFallback.tsx:72-94 | only the velocity changes; with no push, each component lands within 0.00098 of the damped old velocity |
| StarFieldFallback.Jitter | src/components/StarFieldFallback.tsx:89-90 | the random nudge of one axis lies in [−0.001, 0.001) |
| StarFieldFallback.Bounce | src/components/StarFieldFallback.tsx:101-108 | the coordinate is first capped at the limit and then raised to 0, so it is never negative, at most the limit when the limit is not negative, and 0 for a negative limit; on or past a wall the velocity becomes −0.8 times itself and a coordinate already in [0, limit] is kept; strictly inside, position and velocity are unchanged |
| StarFieldFallback.Step | src/components/StarFieldFallback.tsx:72-113 | one frame keeps size and original opacity, leaves the opacity in [0.2, 0.8] and the star inside the viewport |
| StarFieldFallback.StepAwayFromWalls | src/components/StarFieldFallback.tsx:72-98 | at any cursor distance and with no wall contact, the new velocity is old velocity plus cursor push plus nudge, damped by 0.98, and the star moves by exactly that velocity, so damping comes before the move |
| StarFieldFallback.Alpha | src/components/StarFieldFallback.tsx:142 | the canvas alpha lies in [0.1, 1] and equals the target opacity whenever that already does |
| StarFieldFallback.Glow | src/components/StarFieldFallback.tsx:144 | the glow is at least 1 and at least three times the opacity, and exactly three times it once that reaches 1 |
| StarFieldFallback.NearViewport | src/components/StarFieldFallback.tsx:136-137 | a star inside the viewport is never culled |
| StarFieldFallback.TargetOpacity | src/components/StarFieldFallback.tsx:138-139 | the target opacity is positive exactly when the cursor is starless or the star's own opacity is positive, and lies in [0, 1] when that opacity does |
| StarFieldFallback.DrawList | src/components/StarFieldFallback.tsx:135-157 | no more sprites than stars, each with alpha in [0.1, 1] and glow at least 1 |
| StarFieldFallback.DrawListFilters | src/components/StarFieldFallback.tsx:135-157 | the draw list works star by star and in order: the list of a + b is that of a followed by that of b, and a single star gives its sprite (position, alpha of its target opacity, glow of its opacity, size) exactly when it is near the viewport with a positive target opacity, and nothing otherwise |
| StarFieldFallback.SettledAllDrawn | src/components/StarFieldFallback.tsx:136-142 | when every star lies inside the viewport with opacity in [0.2, 0.8], every star is drawn, in order, at its own position and with exactly its target opacity |
| StarFieldFallback.FallbackField.constructor | src/components/StarFieldFallback.tsx:20-26 | the refs start empty: no stars, no frame, not initialized, cursor and extent at zero; the loop's flag and the canvas style are those of the first render's `starLess` |
| StarFieldFallback.CanvasOpacity | src/components/StarFieldFallback.tsx:272 | the canvas's CSS opacity lies in (0, 1] and is below 1 exactly while `starLess` |
| StarFieldFallback.FallbackField.Rerender | src/components/StarFieldFallback.tsx:224-272 | as written: a render with a new prop restyles the canvas and leaves the flag the loop draws with unchanged (the mount effect has no dependencies) |
| StarFieldFallback.FallbackField.RerenderSynced | src/components/StarFieldFallback.tsx:121-157 | corrected: a render with a new prop restyles the canvas and the loop draws with that prop |
| StarFieldFallback.FallbackField.InitStars | src/components/StarFieldFallback.tsx:29-57 | a non-positive extent leaves the star array untouched; otherwise a fresh array of `StarCount` stars replaces it, star i seeded from draw set i |
| StarFieldFallback.FallbackField.UpdateStars | src/components/StarFieldFallback.tsx:65-114 | a zero extent changes nothing; otherwise star i becomes `Step` of its old self, every size is kept and every star ends up settled in the viewport |
| StarFieldFallback.FallbackField.Render | src/components/StarFieldFallback.tsx:121-157 | a frame is drawn exactly when canvas, context and a non-zero extent are present, with at most one sprite per star |
| StarFieldFallback.FallbackField.HandleMouseMove | src/components/StarFieldFallback.tsx:180-189 | with a canvas, the cursor becomes the client position minus the canvas offset; without one it is unchanged |
| StarFieldFallback.FallbackField.HandleResize | src/components/StarFieldFallback.tsx:192-222 | with a canvas the new extent is recorded, the context kept once obtained, and the stars are re-seeded for a positive extent or kept otherwise |
| StarFieldFallback.FallbackField.Mount | src/components/StarFieldFallback.tsx:224-237 | setup runs only with a canvas and only once: an initialized field is left unchanged; otherwise it is seeded, initialized and listening |
| StarFieldFallback.FallbackField.FirstFrameTimer | src/components/StarFieldFallback.tsx:239-243 | the first frame is requested only while initialized and with no frame pending |
| StarFieldFallback.FallbackField.Animate | src/components/StarFieldFallback.tsx:166-177 | an uninitialized field does nothing; otherwise one update, one render of every (now settled) star with the flag its render closure holds, and the next frame requested |
| StarFieldFallback.FallbackField.Cleanup | src/components/StarFieldFallback.tsx:249-263 | the pending frame is cancelled and forgotten, the stars and context dropped, the listeners detached and the initialized flag cleared |
| StarFieldFallback.CleanupStops | src/components/StarFieldFallback.tsx:239-243 | after cleanup, a late first-frame timer or animation callback cannot restart the field |
| StarFieldFallback.StarLessDims | src/components/StarFieldFallback.tsx:138-142 | while `starLess`, every star drawn is drawn at alpha 0.2 |
| StarFieldFallback.StaleStarLess | src/components/StarFieldFallback.tsx:121-272 | as written: mounted with `starLess` false and re-rendered with true, the canvas dims but the next frame is the `starLess`-false frame, star 0 keeping its own opacity as alpha, so that frame differs from the `starLess` frame whenever that opacity is not 0.2 |
| StarFieldFallback.FollowsStarLess | src/components/StarFieldFallback.tsx:121-177 | corrected: after a render with a prop, the next frame is drawn with that prop, every star at alpha 0.2 while it is true, and the canvas style follows it too |
| StarField.Walls | src/components/StarField.tsx:34-39 | there are exactly four walls |
| StarField.WallsEnclose | src/components/StarField.tsx:34-39 | each wall is 50 thick with its inner face exactly on y=0, y=h, x=0 or x=w, spanning that whole edge |
| StarField.StarCount | src/components/StarField.tsx:45 | the count is at most 200, equal to 200 exactly when the density floor reaches 200, and the density floor otherwise |
| StarField.SeededCount | src/components/StarField.tsx:45-47 | the number of stars created is the count, or 0 when the count is negative |
| StarField.SmallViewports | src/components/StarField.tsx:45 | with no lower floor, a viewport under 5000 px² gets no stars and one under 250000 px² fewer than 50 |
| StarField.SeedOpacity | src/components/StarField.tsx:63 | a star's initial opacity lies in [0.2, 1) |
| StarField.SeedOpacityAboveTwinkleRange | src/components/StarField.tsx:126-128 | an initial opacity (drawn at line 63) can exceed 0.8, and one twinkle brings it back to at most 0.8 |
| StarField.SeedStar | src/components/StarField.tsx:48-66 | a seeded star lies inside the viewport, with size in [0.5, 2) and both opacities in [0.2, 1) |
| StarField.Closeness | src/components/StarField.tsx:104-106 | `1 − d/40` lies strictly between 0 and 1 exactly inside the push band (0, 40) |
| StarField.FalloffBounds | src/components/StarField.tsx:107 | strictly inside the band the quadratic falloff is positive and below 0.00008 |
| StarField.FalloffMonotone | src/components/StarField.tsx:107 | the falloff grows with closeness |
| StarField.FalloffBelowLinear | src/components/StarField.tsx:107 | the quadratic falloff never exceeds the linear one |
| StarField.PushMagnitudeRange | src/components/StarField.tsx:104-107 | inside the band the magnitude lies in (0, 0.00008) |
| StarField.PushMagnitudeDecreasing | src/components/StarField.tsx:106-107 | the magnitude never grows with the distance |
| StarField.PushMagnitudeFades | src/components/StarField.tsx:106-107 | the magnitude is at most linear in the distance left to the rim and is 0 at d = 40 |
| StarField.PushForceGeometry | src/components/StarField.tsx:109-115 | the applied force is exactly as long as the magnitude and points away from the cursor |
| StarField.RandomPush | src/components/StarField.tsx:119-123 | the random force on each axis lies in [−0.0000075, 0.0000075) |
| StarField.Forces | src/components/StarField.tsx:104-123 | the engine gets the push and then the random force inside the band, only the random force outside it |
| StarField.DrawList | src/components/StarField.tsx:149-171 | every star is drawn at its position, with alpha 0.2 while hovering and its opacity otherwise, and a glow of three times its opacity |
| StarField.PhysicsField.constructor | src/components/StarField.tsx:18-24 | the refs start empty: no stars, engine, cursor body or frame |
| StarField.PhysicsField.InitPhysics | src/components/StarField.tsx:27-84 | a new engine with the four walls, `SeededCount` stars seeded from their draws, and the cursor body at the viewport centre |
| StarField.PhysicsField.UpdatePhysics | src/components/StarField.tsx:87-133 | without an engine or cursor body nothing happens; otherwise the cursor body follows the cursor, each star's forces are exactly `Forces`, and each opacity is twinkled in place into [0.2, 0.8] |
| StarField.PhysicsField.Render | src/components/StarField.tsx:136-172 | a frame is drawn exactly when canvas and context exist, with one sprite per star |
| StarField.PhysicsField.HandleMouseMove | src/components/StarField.tsx:182-191 | with a canvas, the cursor becomes the client position minus the canvas offset |
| StarField.PhysicsField.HandleResize | src/components/StarField.tsx:194-213 | the old engine is cleared and a fresh one built, so the stars after a resize depend only on the new extent and the draws |
| StarField.PhysicsField.Mount | src/components/StarField.tsx:215-227 | with a canvas the field is seeded, listening and has its first frame requested; without one nothing changes |
| StarField.PhysicsField.Animate | src/components/StarField.tsx:175-179 | one update, one render and the next frame; with an engine and no hovering every drawn alpha lies in [0.2, 0.8] |
| StarField.PhysicsField.Cleanup | src/components/StarField.tsx:229-241 | the listeners are detached, the pending frame cancelled, and afterwards no engine ever created is left uncleared |
| GlobalEffects.AppendTrail | src/components/GlobalEffects.tsx:135-138 | appending gives length min(32, old+1); the last element is the new point and the rest is the matching suffix of the old trail, in order |
| GlobalEffects.TrailIsWindow | src/components/GlobalEffects.tsx:126-143 | from an empty trail, any run of samples leaves exactly the last 32 of them, in order |
| GlobalEffects.WindowStep | src/components/GlobalEffects.tsx:135-138 | appending one sample to the last 32 of a run gives the last 32 of the longer run |
| GlobalEffects.Samples | src/components/GlobalEffects.tsx:126-143 | a trail of at most 32 points stays at most 32 points however many samples follow |
| GlobalEffects.Classify | src/components/GlobalEffects.tsx:106-121 | no direction exactly within distance 30; beyond it top/bottom only when the vertical offset strictly dominates (top for dy < 0), right/left otherwise (right for dx > 0), so ties go horizontal |
| GlobalEffects.DeadZoneBySquares | src/components/GlobalEffects.tsx:106-108 | with `d` the true distance, `d > 30` exactly when dx² + dy² > 900 |
| GlobalEffects.DirectionFollowsGesture | src/components/GlobalEffects.tsx:112-116 | a chosen direction selects the menu item on the side the cursor moved to: the item's offset has a positive dot product with the cursor's |
| GlobalEffects.TrailOpacity | src/components/GlobalEffects.tsx:178 | `index/(len−1)` lies in [0, 1], is 0 for the oldest point of a longer trail and 1 for the newest |
| GlobalEffects.TrailOpacityIncreasing | src/components/GlobalEffects.tsx:202 | newer points are drawn strictly more opaque |
| GlobalEffects.Segments | src/components/GlobalEffects.tsx:173-198 | at most one segment per point after the first, each between two distinct places, with opacity in [0, 1] |
| GlobalEffects.SegmentsContent | src/components/GlobalEffects.tsx:173-198 | every segment joins some point k ≥ 1 to its predecessor with opacity k/(len−1), and the segment for point k is drawn exactly when the point moved |
| GlobalEffects.SegmentsInOrder | src/components/GlobalEffects.tsx:173-198 | segments come oldest first: their opacities strictly increase |
| GlobalEffects.Dots | src/components/GlobalEffects.tsx:200-206 | at most one dot per point, with opacity in [0, 1] |
| GlobalEffects.DotsContent | src/components/GlobalEffects.tsx:200-206 | every dot sits on some point k with opacity k/(len−1), and the dot for point k is drawn exactly when it is the first point or the point moved |
| GlobalEffects.DotsInOrder | src/components/GlobalEffects.tsx:200-206 | dots come oldest first: their opacities strictly increase |
| GlobalEffects.SamePlace | src/components/GlobalEffects.tsx:181 | equal points are in the same place, and points in the same place differ at most in their timestamp |
| GlobalEffects.DotsEndSegments | src/components/GlobalEffects.tsx:181-205 | past the first point the same points are skipped for dots and segments: dot k sits at the end of segment k with the same opacity |
| GlobalEffects.FirstDotAlone | src/components/GlobalEffects.tsx:173-206 | a non-empty trail has exactly one dot more than segments, the first point's |
| GlobalEffects.LayerOpacity | src/components/GlobalEffects.tsx:161 | the trail layer is hidden (0) exactly over interactive elements or project areas and fully shown (1) otherwise |
| GlobalEffects.Max | src/components/GlobalEffects.tsx:33-39 | `Math.max` of two numbers is one of them and at least both |
| GlobalEffects.DocumentHeight | src/components/GlobalEffects.tsx:33-39 | the height is at least each of the five measurements and equal to one of them |
| GlobalEffects.Effects.constructor | src/components/GlobalEffects.tsx:18-28 | empty trail, hidden menu at (0, 0) with no direction, flags false, height 0 |
| GlobalEffects.Effects.RestartTrailEffect | src/components/GlobalEffects.tsx:82-83 | a re-run of the trail effect starts its sample position at (0, 0) |
| GlobalEffects.Effects.UpdateDocumentHeight | src/components/GlobalEffects.tsx:32-40 | the stored height becomes the maximum of the five measurements |
| GlobalEffects.Effects.HandleMouseDown | src/components/GlobalEffects.tsx:46-56 | the right button opens the menu at the cursor with no direction; any other button changes nothing |
| GlobalEffects.Effects.HandleMouseUp | src/components/GlobalEffects.tsx:59-63 | the right button hides the menu and keeps its position and direction; any other button changes nothing |
| GlobalEffects.Effects.Close | src/components/GlobalEffects.tsx:326 | the menu's close callback hides it and keeps the rest |
| GlobalEffects.Effects.HandleMouseMove | src/components/GlobalEffects.tsx:85-123 | the cursor and the two hover flags are recorded; the direction is recomputed only while the menu is visible, and then by `Classify` from the menu centre |
| GlobalEffects.Effects.TrailTick | src/components/GlobalEffects.tsx:126-143 | a sample is appended only away from (0, 0) and outside project areas; otherwise the trail is unchanged |
| GlobalEffects.MenuFreezesTrail | src/components/GlobalEffects.tsx:103-151 | while the menu is open a cursor move re-runs the trail effect, so the next tick samples (0, 0) and the trail does not grow |
| ContextMenu.FindFrom | src/components/ContextMenu.tsx:54 | `find` returns a table entry with the asked direction, and nothing exactly when no entry has it |
| ContextMenu.FindFromFirst | src/components/ContextMenu.tsx:54 | `find` returns the first entry with the asked direction |
| ContextMenu.FindByDirection | src/components/ContextMenu.tsx:54 | the entry found is a table entry with the asked direction, and nothing is found exactly for no direction |
| ContextMenu.DirectionsUnique | src/components/ContextMenu.tsx:16-21 | each of the four directions names exactly one table entry and the lookup finds it; the empty direction finds none |
| ContextMenu.OnlyEntryFor | src/components/ContextMenu.tsx:16-21 | an entry whose direction no other entry shares is the one `find` returns, and the only entry with that direction |
| ContextMenu.ItemPosition | src/components/ContextMenu.tsx:79-92 | top (x, y−50), right (x+80, y), bottom (x, y+50), left (x−80, y), anything else the centre |
| ContextMenu.ItemsApart | src/components/ContextMenu.tsx:75-92 | the four items sit on four distinct points, none at the centre |
| ContextMenu.IndicatorAngle | src/components/ContextMenu.tsx:124-136 | no wedge without a direction; otherwise a start angle among 0, 90, 180, 270 |
| ContextMenu.IndicatorFacesItem | src/components/ContextMenu.tsx:132-136 | the quarter-turn wedge ends (start + 90 mod 360) up, right, down or left exactly when its item is above, right of, below or left of the centre |
| ContextMenu.Render | src/components/ContextMenu.tsx:72-166 | nothing is rendered while hidden; otherwise one view per table entry, in order, at `ItemPosition`, active exactly when its direction is the gesture direction |
| ContextMenu.OneActiveItem | src/components/ContextMenu.tsx:146 | at most one item is highlighted, and one is exactly when a direction is set |
| ContextMenu.HandleNavigation | src/components/ContextMenu.tsx:50-70 | nothing happens exactly when there is no target (none clicked and no direction, or a direction with no entry); otherwise one action followed by the close callback |
| ContextMenu.ActiveDirectionOverrides | src/components/ContextMenu.tsx:52-55 | with a direction set the clicked item is ignored and an action always follows |
| ContextMenu.TableActions | src/components/ContextMenu.tsx:60-68 | Inspect alerts, routes navigate to their path, and because Inspect is checked first no table entry scrolls to the top |
| ContextMenu.ContainerMouseUp | src/components/ContextMenu.tsx:100-106 | releasing on the menu itself navigates only with a direction set, to that direction's entry |
| ContextMenu.HandleEscape | src/components/ContextMenu.tsx:30-34 | Escape, and only Escape, closes the menu |
| DemoPage.ShapeOfPieces | src/app/demo/page.tsx:60 | every line of the form digits, colon, at least one blank, digits, point, digits (then anything) matches `^\d+:\s+\d+\.\d+%?` |
| DemoPage.LogLineShape | src/app/demo/page.tsx:60 | a line of the pattern is at least six characters long and starts with a digit |
| DemoPage.IsLogLine | src/app/demo/page.tsx:60 | a kept line is at least six characters long |
| DemoPage.KeepLine | src/app/demo/page.tsx:60 | the filter keeps a line, unchanged and once, exactly when it matches the pattern |
| DemoPage.ShapeLayout | src/app/demo/page.tsx:60 | in `a:wc.d…` the text, colon, blanks, digits, point and fraction each sit at the expected offsets |
| DemoPage.ShapeColon | src/app/demo/page.tsx:60 | in a matching line the first colon is the one right after the leading digits, with at least four characters after it |
| DemoPage.Kept | src/app/demo/page.tsx:58-60 | the filter keeps no more lines than it is given, and every kept line's trimmed form matches the pattern |
| DemoPage.KeptAppend | src/app/demo/page.tsx:60 | filtering works piecewise (`Kept(a + b) == Kept(a) + Kept(b)`), so kept lines keep their original order |
| DemoPage.KeptFromInput | src/app/demo/page.tsx:60 | every kept line is one of the input lines |
| DemoPage.KeptOne | src/app/demo/page.tsx:60 | a single line is kept exactly when its trimmed form matches |
| DemoPage.LogLines | src/app/demo/page.tsx:58-61 | the log is the first min(10, kept) kept lines of the output split on newlines, in order |
| DemoPage.ColonIndex | src/app/demo/page.tsx:70 | the colon of a kept line lies inside the line |
| DemoPage.FirstColon | src/app/demo/page.tsx:70 | the first colon of a kept (untrimmed) line is the one after its leading digits |
| DemoPage.BlanksThenDigit | src/app/demo/page.tsx:60 | in a kept line the colon is followed by at least one blank and then a digit |
| DemoPage.SecondPieceAfterColon | src/app/demo/page.tsx:70 | when the first colon is followed by blanks and a digit, the trimmed second piece of `split(':')` starts with a digit |
| DemoPage.SecondPieceStartsWithDigit | src/app/demo/page.tsx:70 | every kept line splits into at least two pieces on ':' and its trimmed second piece starts with a digit |
| DemoPage.KeptLineParses | src/app/demo/page.tsx:70-71 | every kept line parses to a number (never NaN) that is not negative, so the TypeError and NaN paths of the parsing cannot occur for kept lines |
| DemoPage.LogLinesAreLogLines | src/app/demo/page.tsx:58-61 | every line of the log matches the pattern |
| DemoPage.LogLinesHaveColons | src/app/demo/page.tsx:69-70 | every log line holds a colon, so every one of them can be split and parsed |
| DemoPage.ParseLogLine | src/app/demo/page.tsx:70-71 | a line splits on ':' into a digit field, the text before the first colon with white space trimmed and therefore holding no colon, and a probability read by `parseFloat` from the trimmed rest with its first `%` removed, NaN standing as none |
| DemoPage.Entries | src/app/demo/page.tsx:69-77 | one entry per log line, entry i being that line split on the colon and parsed, every line having at least two pieces |
| DemoPage.FirstMaxUnique | src/app/demo/page.tsx:72 | there is at most one first maximum |
| DemoPage.FirstMaxExistsUpTo | src/app/demo/page.tsx:72-75 | once any of the first n entries beats −1, a first maximum among them exists |
| DemoPage.FirstMaxExists | src/app/demo/page.tsx:72-75 | once any entry beats −1, a first maximum of the whole log exists |
| DemoPage.ScanTakes | src/app/demo/page.tsx:72-74 | an entry strictly above the maximum so far becomes the first maximum so far and its digit the best digit |
| DemoPage.ScanKeeps | src/app/demo/page.tsx:72 | any other entry, including a later equal one or a NaN, leaves best digit and maximum as they were |
| DemoPage.ScanFindsFirstMax | src/app/demo/page.tsx:66-77 | from any consistent point of the scan, the scan ends on the digit of the first maximum |
| DemoPage.ScanKeepsFallback | src/app/demo/page.tsx:66-67 | when no entry beats −1 the scan ends on the fallback digit |
| DemoPage.ScanFrom | src/app/demo/page.tsx:72-74 | the scan ends on the digit it started with or on the digit of an entry at or after its start |
| DemoPage.BestDigit | src/app/demo/page.tsx:66-77 | the digit chosen is the fallback or the digit of some entry |
| DemoPage.BestDigitChosen | src/app/demo/page.tsx:66-77 | the reported digit is that of the first line with the strictly greatest probability, and the fallback when no line beats −1 |
| DemoPage.PickBest | src/app/demo/page.tsx:66-77 | the loop over the parsed lines returns exactly `BestDigit` |
| DemoPage.PredictionCapture | src/app/demo/page.tsx:53 | a capture is a digit that follows `Prediction: ` somewhere in the output; no capture means no digit follows it anywhere |
| DemoPage.CaptureIsLeftmost | src/app/demo/page.tsx:53 | the captured digit is the one after the leftmost `Prediction: ` that a digit follows; no capture means there is no such place |
| DemoPage.TagAt | src/app/demo/page.tsx:53 | the text starts with the tag and a digit d exactly when its tag-long prefix is the tag and the next character is d |
| DemoPage.Fallback | src/app/demo/page.tsx:54 | the fallback is one character long, and is '?' exactly when nothing was captured |
| DemoPage.DisplayLog | src/app/demo/page.tsx:80 | the stored log is the kept lines when there are any and the raw output alone otherwise, so it holds 1 to 10 entries |
| DemoPage.LogDecides | src/app/demo/page.tsx:66-80 | as soon as one line is kept the log has a first maximum, so the fallback digit is never shown |
| DemoPage.Demo.constructor | src/app/demo/page.tsx:25-30 | not predicting, no prediction, image, log or time, visualization hidden |
| DemoPage.Demo.BeginPredict | src/app/demo/page.tsx:39-42 | without a canvas nothing happens; otherwise the page is busy |
| DemoPage.AnalyseOutput | src/app/demo/page.tsx:58-80 | the digit shown is `BestDigit` of the parsed log with the capture fallback, and the log shown is `DisplayLog` of the output |
| DemoPage.Demo.ShowResult | src/app/demo/page.tsx:79-83 | a successful reply sets the prediction, the log, the image, the time and the visualization flag, and nothing else |
| DemoPage.Demo.FinishPredict | src/app/demo/page.tsx:51-94 | a successful reply stores the best digit, the display log, the image and the time and shows the visualization; any other reply or a thrown error changes none of these; the page is never busy afterwards |
| DemoPage.Demo.HandleClear | src/app/demo/page.tsx:97-104 | prediction, image, log, time and visualization flag are all reset; a running request is left alone |
| DemoPage.SecondPieceOfPair | src/app/demo/page.tsx:146 | text after a single colon is exactly the second piece of `split(':')` |
| DemoPage.ParsePrintedProbability | src/app/demo/page.tsx:146 | the printed probability ` whole.frac%` reads as the fixed-point number it spells |
| DemoPage.PrintedProbabilityFree | src/app/demo/page.tsx:146 | the printed probability holds no colon |
| DemoPage.HighProbOfLine | src/app/demo/page.tsx:146 | a line `d: whole.frac%` is highlighted exactly when its probability is above 50 or it contains `100.00%` |
| DemoPage.HighProb | src/app/demo/page.tsx:146 | for a line without a colon the highlight depends only on whether it contains `100.00%` |
| ScrollSpy.ActiveUpTo | src/app/works/page.tsx:85-97 | among the first n refs the result is 0 or a mounted, centred index below n, and no later index below n is centred |
| ScrollSpy.ActiveIsLastCentred | src/app/works/page.tsx:87-97 | when some section is centred the active one is centred and no centred section comes after it; when none is, it is 0 |
| ScrollSpy.ScrollTarget | src/app/works/page.tsx:107-115 | a section is scrolled to exactly when its ref exists and is mounted, and it is that section |
| ScrollSpy.StaggerDelay | src/app/about/page.tsx:218 | a staggered delay is never negative and is 0 exactly for the first item |
| ScrollSpy.StaggerOrdered | src/app/about/page.tsx:218 | a later item starts strictly later, at least one step after any earlier one |
| WorksPage.Works.constructor | src/app/works/page.tsx:74 | the first project starts active |
| WorksPage.Works.HandleScroll | src/app/works/page.tsx:83-100 | the loop over the refs leaves the active project equal to `ActiveSection`: the last mounted ref whose top lies in (−vh/2, vh/2], or 0 |
| WorksPage.EntranceStaggered | src/app/works/page.tsx:174 | the first project enters at once and each later one at least 0.2 s after any earlier one |
| WorksPage.TwoDigitsReadBack | src/app/works/page.tsx:152-154 | below 100, `String(n).padStart(2, '0')` is two digits that read back as n |
| WorksPage.CounterReadsBack | src/app/works/page.tsx:152-154 | the counter reads back as the active project plus one, over "05" for the five projects |
| WorksPage.FiveOnTwoDigits | src/app/works/page.tsx:154 | the five projects show as "05" |
| WorksPage.TwoDigits | src/app/works/page.tsx:152-154 | `String(n).padStart(2, '0')` is at least two digits, and `String(n)` itself from 10 on |
| WorksPage.PaddedDigits | src/app/works/page.tsx:152-154 | padding digits to two with zeros gives digits, and leaves two or more digits alone |
| WorksPage.Counter | src/app/works/page.tsx:152-154 | the counter shows at least two digits over "05" |
| WorksPage.MediaFor | src/app/works/page.tsx:255-277 | a truthy video wins; otherwise a truthy image, with alt "<title> preview"; otherwise the placeholder |
| WorksPage.Links | src/app/works/page.tsx:211-240 | "View Project" appears exactly for a truthy link and comes first, "Source Code" exactly for a truthy github link and comes last |
| WorksPage.TableMedia | src/app/works/page.tsx:19-71 | in the project table only the first project shows a picture and only the second a video |
| WorksPage.TableLinks | src/app/works/page.tsx:19-71 | every project links its source; all but the last also link a demo |
| AboutPage.About.constructor | src/app/about/page.tsx:6-7 | the first section starts active and no section is visible |
| AboutPage.About.HandleScroll | src/app/about/page.tsx:15-43 | the active section is `ActiveSection`, and the visible set holds exactly the mounted sections meeting the viewport, with nothing kept from before |
| AboutPage.SkillDelay | src/app/about/page.tsx:217-219 | skill group i waits i·0.2 s while section 1 is visible and not at all otherwise |
| AboutPage.SkillGroupsInOrder | src/app/about/page.tsx:218 | while section 1 is visible, later skill groups enter at least 0.2 s after earlier ones |
| HomePage.CalmPhrasesDistinct | src/app/page.tsx:16-29 | the pool holds twelve phrases, no two alike |
| HomePage.IndexFrom | src/app/page.tsx:54 | `indexOf`: −1 when the phrase is absent, otherwise a position holding it with no earlier position holding it |
| HomePage.Wrap | src/app/page.tsx:55 | the wrapped index lies below the pool size |
| HomePage.WrapIsRemainder | src/app/page.tsx:55 | for an index from 0 to m the wrap is exactly the remainder modulo m |
| HomePage.NextOfPoolPhrase | src/app/page.tsx:53-57 | in a pool without repeats each phrase is followed by the next one and the last by the first |
| HomePage.NextOfStranger | src/app/page.tsx:54-56 | a phrase outside the pool (index −1) is followed by the first phrase |
| HomePage.RotateAhead | src/app/page.tsx:53-57 | n changes (n at most the pool size) from the k-th phrase land on the phrase n places further round the pool |
| HomePage.FullCircle | src/app/page.tsx:55 | as many changes as the pool has phrases bring any phrase back |
| HomePage.CalmCycle | src/app/page.tsx:53-57 | twelve changes bring every calm phrase back, and a phrase from outside the pool gives way to the first one |
| HomePage.NextIn | src/app/page.tsx:53-57 | the next phrase is always one of the pool |
| HomePage.Home.constructor | src/app/page.tsx:7-10 | the first phrase, shown, with no timer tracked or pending |
| HomePage.Home.ClearTimer | src/app/page.tsx:37-42 | the tracked timeout, if any, is cancelled and forgotten; without one nothing changes, so a second call is a no-op |
| HomePage.Home.ScheduleNext | src/app/page.tsx:45-49 | it clears before it sets, so the only change timer pending is the newly tracked one |
| HomePage.Home.Mount | src/app/page.tsx:65-66 | mounting schedules the first change, leaves the phrase and its visibility alone, and keeps every pending timeout tracked |
| HomePage.Home.ChangeFires | src/app/page.tsx:49-52 | the change fades the phrase out and sets a fade timeout that `timerRef` does not track |
| HomePage.Home.ChangeFiresTracked | src/app/page.tsx:49-52 | corrected step: the same fade-out with the fade timeout tracked, so it is the only timeout pending |
| HomePage.Home.FadeFires | src/app/page.tsx:52-61 | the fade timeout moves to the next phrase and fades it in; it removes itself and the tracked change timer from the pending set and adds exactly one new change timer, tracked, and keeps every pending timeout tracked; it does not check that the page is still mounted |
| HomePage.Home.Unmount | src/app/page.tsx:79-82 | cleanup clears the tracked timer; when every pending timeout was tracked nothing is left pending |
| HomePage.Home.Wheel | src/app/page.tsx:68-75 | the wheel handler always prevents scrolling and changes neither the phrase nor any timer |
| HomePage.LeakAfterUnmount | src/app/page.tsx:49-62 | as written: unmounting during the fade leaves the fade timeout pending, and when it fires a new change timer is pending for an unmounted page |
| HomePage.NoLeakWhenTracked | src/app/page.tsx:79-82 | corrected: with the fade timeout tracked, the run of LeakAfterUnmount up to its unmount leaves nothing pending |
| HomePage.TrackedNeverLeaks | src/app/page.tsx:37-82 | corrected: after any sequence of mounts and of change and fade timeouts firing (each applied when it can happen), followed by the unmount, nothing is left pending |
| CnnVisualization.ImagesForLayer | src/components/CNNVisualization.tsx:41-49 | exactly `filterCount` images; image i has src `/cnn/outputs/{layer}-channel_{i}.png?t={timestamp}` and alt `L{layer} F{i}` |
| CnnVisualization.ImageSrc | src/components/CNNVisualization.tsx:46 | an image URL starts with `/cnn/outputs/` and ends with the decimal timestamp |
| CnnVisualization.ImageAlt | src/components/CNNVisualization.tsx:47 | the alt text is `L`, the layer, ` F` and the filter number, and nothing more |
| CnnVisualization.ImageSourcesDistinct | src/components/CNNVisualization.tsx:46 | two image URLs of one render are equal only for the same layer and filter, so no two cells show the same file |
| CnnVisualization.LayerImagesDistinct | src/components/CNNVisualization.tsx:45-46 | the images of one layer all have different URLs |
| CnnVisualization.CeilSqrtFrom | src/components/CNNVisualization.tsx:89 | the search returns a c with c·c ≥ n whose predecessor's square is below n |
| CnnVisualization.SquareStrict | src/components/CNNVisualization.tsx:89 | a smaller square has a smaller root |
| CnnVisualization.CeilSqrt | src/components/CNNVisualization.tsx:89 | `Math.ceil(Math.sqrt(n))` for whole n is the least c with c·c ≥ n |
| CnnVisualization.GridColumns | src/components/CNNVisualization.tsx:87-89 | layer index 1 gets 4 columns; any other layer the least c with c·c ≥ filters, a missing count counting as 0 |
| CnnVisualization.GridIsSmallestSquare | src/components/CNNVisualization.tsx:87-92 | outside layer 1 a square grid of that many columns holds all the images and one column fewer would not |
| CnnVisualization.OneDigitHighlighted | src/components/CNNVisualization.tsx:142-150 | at most one of the ten output digits is highlighted, and a one-digit prediction highlights exactly its own digit |
| CnnVisualization.Highlighted | src/components/CNNVisualization.tsx:142-150 | a digit is highlighted only under a prediction made of digits |
| CnnVisualization.RefreshTimestamp | src/components/CNNVisualization.tsx:32-36 | a truthy new prediction time (not null, not 0) refreshes the timestamp; null or 0 leaves it |
| CnnVisualization.ConvRowFrom | src/components/CNNVisualization.tsx:76-115 | the layers from idx on alternate with connectors, layer, connector, …, ending on a layer |
| CnnVisualization.ConnectorsBetweenNeighbours | src/components/CNNVisualization.tsx:111-113 | every connector sits between two consecutive layers, never before the first or after the last |
| CnnVisualization.ConvRow | src/components/CNNVisualization.tsx:76-115 | the row of n layers has 2n−1 items (none for no layer), starting on layer 0 and ending on layer n−1 |
| StarrySky.OpacityFor | src/components/StarrySky.tsx:7-10 | a star's opacity is one of the four buckets 0.1, 0.2, 0.4, 0.6 |
| StarrySky.OpacityMonotone | src/components/StarrySky.tsx:7-10 | a brighter star is never fainter, and the opacity rises only across one of the edges 0.3, 0.6, 0.85 |
| StarrySky.SizeFor | src/components/StarrySky.tsx:16 | a star is 1 px or 0.5 px across |
| StarrySky.BigStarsAreBright | src/components/StarrySky.tsx:7-16 | a star is 1 px exactly when its brightness exceeds 0.9, and every such star has the top opacity 0.6 |
| StarrySky.Sky | src/components/StarrySky.tsx:3-19 | the sky has exactly 1000 stars and star i carries id i |
| StarrySky.MakeStar | src/components/StarrySky.tsx:3-19 | star i carries id i, sits at left and top in [0, 100) for draws in [0, 1), and a 1 px star has opacity 0.6 |
| StarrySky.SkyInsidePage | src/components/StarrySky.tsx:14-15 | with random draws in [0, 1) every star's left and top percentages lie in [0, 100) |
| Pexels.FitFiles | src/lib/pexels.ts:26 | the filter keeps only files of height at most 720 and never adds any |
| Pexels.FitFilesFilters | src/lib/pexels.ts:26 | the filter works file by file and keeps the order: the result for a + b is that for a followed by that for b, and a single file is kept exactly when it is at most 720 high |
| Pexels.FitFilesKeeps | src/lib/pexels.ts:26 | every file of height at most 720 survives the filter |
| Pexels.FitFilesFrom | src/lib/pexels.ts:26 | every file the filter returns is a file of the video |
| Pexels.InsertDesc | src/lib/pexels.ts:27 | inserting a file into a descending list keeps it descending and is a permutation of the list plus the file; an earlier file of equal height stays in front |
| Pexels.SortDesc | src/lib/pexels.ts:27 | the sort by `b.height - a.height` yields a permutation of the files in descending height |
| Pexels.FirstTallest | src/lib/pexels.ts:27 | the index found is of a file no other file is taller than, and every file before it is strictly shorter |
| Pexels.SortHead | src/lib/pexels.ts:27 | the stable sort puts the first of the tallest files at index 0 |
| Pexels.ChosenIsFirstTallest | src/lib/pexels.ts:25-27 | `[0]?.link` is undefined when no file fits and otherwise the link of the first of the tallest fitting files |
| Pexels.TallestFitCoversAll | src/lib/pexels.ts:25-27 | the chosen file is a file of the video, at most 720 high, and no file at most 720 high is taller |
| Pexels.NoFitNoLink | src/lib/pexels.ts:25-27 | when every file is taller than 720 there is no link |
| Pexels.ChosenLink | src/lib/pexels.ts:25-27 | a link, when there is one, is that of a file of the video at most 720 high |
| Pexels.GetWaterVideo | src/lib/pexels.ts:1-39 | a missing or empty API key throws exactly "PEXELS_API_KEY is not set"; with a key the function always returns a URL |
| Pexels.ReturnedLinkIsTallestFit | src/lib/pexels.ts:20-33 | any returned URL other than the fallback comes from a non-empty `videos` and is the link of the first tallest file of at most 720 lines of the first video |
| Pexels.NoFitFallsBack | src/lib/pexels.ts:29-37 | with a key, a first video with no file of at most 720 lines gives the fallback URL |
| ContactPage.WithField | src/app/contact/page.tsx:20-26 | the edited field takes the new value and the other three fields keep theirs |
| ContactPage.FieldsDetermineForm | src/app/contact/page.tsx:7-12 | two forms that agree on the four fields are the same form |
| ContactPage.EditsCompose | src/app/contact/page.tsx:20-26 | of two edits of one field the last wins, edits of different fields commute, and writing a field's own value back changes nothing |
| ContactPage.Contact.constructor | src/app/contact/page.tsx:7-14 | the page starts with an empty form, not submitting, status idle and no reset pending |
| ContactPage.Contact.InputChange | src/app/contact/page.tsx:20-26 | an input event replaces the one field it names and nothing else |
| ContactPage.Contact.BeginSubmit | src/app/contact/page.tsx:28-37 | submitting sets the busy flag and posts the current form unchanged |
| ContactPage.Contact.CompleteSubmit | src/app/contact/page.tsx:39-59 | an ok reply shows success and empties the form; a non-ok reply or a thrown fetch shows the error and keeps the form; either way the busy flag clears and one 3000 ms reset is scheduled |
| ContactPage.Contact.ResetFires | src/app/contact/page.tsx:42-49 | a scheduled reset puts the status back to idle and touches nothing else |
| ContactPage.SubmitRoundTrip | src/app/contact/page.tsx:28-60 | a whole submit followed by its reset ends idle and not busy, with the form emptied exactly when the reply was ok |
| ContactPage.ButtonLabel | src/app/contact/page.tsx:185-189 | the button shows the check icon exactly on success, "Error Sending" on error and "Send Message" when idle |
| ContactPage.LabelsTellStatus | src/app/contact/page.tsx:185-189 | different statuses never show the same label |
| ContactPage.Button | src/app/contact/page.tsx:179-195 | while submitting the button is disabled, its label hidden and the spinner shown, and the reverse otherwise |
| Text.TrimBounds | src/app/demo/page.tsx:60 | `trim` cuts exactly the leading and trailing white space: everything outside the bounds is white space and the kept text starts and ends on non-white characters |
| Text.TrimStartsAt | src/app/demo/page.tsx:60 | a line whose first non-blank character is at n trims to text starting with that character |
| Text.Trim | src/app/demo/page.tsx:60 | `trim` never lengthens, leaves no white space at either end, and gives the empty text exactly for all-blank text |
| Text.IndexOf | src/app/demo/page.tsx:70 | `indexOf` finds a position holding the character with none before it, or reports absence |
| Text.IndexOfFree | src/app/demo/page.tsx:70 | `indexOf` reports absence exactly when the character does not occur |
| Text.IndexOfFirst | src/app/demo/page.tsx:70 | the first position holding the character is the one `indexOf` returns |
| Text.Split | src/app/demo/page.tsx:59 | `split` on one character gives at least one piece, and more than one exactly when the separator occurs |
| Text.SplitPiecesFree | src/app/demo/page.tsx:59 | no piece of a split holds the separator |
| Text.JoinSplit | src/app/demo/page.tsx:59 | joining the pieces with the separator gives the text back |
| Text.SplitAtFirst | src/app/demo/page.tsx:59 | splitting at the first separator gives the text before it followed by the split of the rest |
| Text.JoinCons | src/app/demo/page.tsx:59 | joining one more piece in front adds it and one separator |
| Text.SplitJoin | src/app/demo/page.tsx:70 | splitting separator-free pieces joined by the separator gives the pieces back |
| Text.SplitHead | src/app/demo/page.tsx:70 | the first piece is the text before the first separator |
| Text.SplitSecondIsHead | src/app/demo/page.tsx:70 | the second piece is what follows the first separator up to the next one |
| Text.ContainsInfix | src/app/demo/page.tsx:146 | `includes` finds every infix of a string |
| Text.Contains | src/app/demo/page.tsx:146 | `includes` finds the empty text everywhere and nothing longer than the text |
| Text.ContainsAt | src/app/demo/page.tsx:146 | `includes` holds exactly when the pattern occurs at some position |
| Text.RemoveFirstKeepsHead | src/app/demo/page.tsx:71 | `replace('%', '')` keeps the first character of text that does not start with `%` |
| Text.RemoveFirst | src/app/demo/page.tsx:71 | `replace('%', '')` leaves text without `%` alone and otherwise removes exactly one `%`, keeping every other character |
| Text.DecimalString | src/app/works/page.tsx:152 | `String(n)` is a non-empty run of digits without a leading zero, one digit exactly below 10 |
| Text.DecimalRoundTrip | src/app/works/page.tsx:152 | reading the digits of `String(n)` back gives n |
| Text.DecimalInjective | src/app/works/page.tsx:152 | different numbers print differently |
| Text.LeadingZero | src/app/works/page.tsx:152 | a zero put in front of digits does not change their value |
| Text.PadStart | src/app/works/page.tsx:152 | `padStart` ends with the original text, is exactly as long as asked unless already longer, and is fill in front |
| Text.ParseFloatAfterSpaces | src/app/demo/page.tsx:71 | `parseFloat` ignores leading white space |
| Text.ParseFloatLeadingDigit | src/app/demo/page.tsx:71 | text starting with a digit always parses to a non-negative number |
| Text.ParseFloatDecimal | src/app/demo/page.tsx:71 | `parseFloat` reads back the number `String(n)` wrote, whatever non-numeric text follows |
| Text.ParseFloatFixed | src/app/demo/page.tsx:71 | `parseFloat("int.frac%")` is the value of the fixed-point literal |
| Text.ParseFloat | src/app/demo/page.tsx:71 | `parseFloat` of blank text is NaN, and a negative result comes from text whose first non-blank is `-` |

## Left out

- Canvas drawing: arcs, fills, shadow blur, the sine size pulse and device-pixel-ratio resizing are raster output over floating point.
- Host scheduling: `requestAnimationFrame`, `setTimeout` and `setInterval` are not modelled as clocks. Handles are abstract values, and a callback firing is a method call.
- Floating point: `Math.random`, `Math.sqrt`, rounding, NaN and infinities are not modelled. The try/catch around the frame update is not modelled, because it does not contain a non-finite value per star.
- The physics engine: `Matter.Engine.update`, collisions, restitution and air friction are a foreign library. A frame ends with the forces handed to the engine.
- Network and console: `fetch`, `response.json()` and `console` calls become response parameters. `Date.now()` is a parameter.
- DOM and React: `getBoundingClientRect`, `elementFromPoint`, `closest`, `scrollIntoView`, `alert` and `window.location` are inputs or effect values. React re-rendering is a function of the state.
- Hover suppression: the effects layer passes a prop the physics star field does not read, so the hover flag is never set. The render rule is modelled as a function of the flag.
- CSS and text formatting: the `${n}%` and `${d}s` strings, class names and transition timings are not modelled.
- The works and about scroll handlers return early when the container element is missing. That guard is not modelled; the measurements are given.
- The demo's unmount cleanup sends a `navigator.sendBeacon`. That is I/O and is not modelled.
- The demo's regular expression capture on the raw output is modelled for the `Prediction: (\d)` pattern only.
- `Text.ParseFloat` does not read `Infinity`. The classifier lines never contain it.
- `ContactPage`: `isMounted` is not modelled; it is set on mount and never read. The `[name]` key is restricted to the four form inputs.
- `ContactPage.Contact.ResetFires`: the reset fires unconditionally. Two submits in quick succession leave two reset timers, and the earlier timer returns the second status to idle early. The model counts pending resets but does not order them.
- `Pexels`: a first video without a `video_files` array makes the filter throw, which settles to the fallback. The model always gives a video its list of files.
- `StarrySky.Sky`: a star's `left` and `top` are kept as numbers, not as the `${n}%` strings the page builds.
- Not part of this model: the prediction and cleanup API routes, which shell out to a classifier binary and delete files; the mail transport; the drawing canvases; and the presentation-only navigation bar, video background, loading and not-found pages.

## Findings

| source | as written | input that shows it | evidently intended | confidence | as-written member | corrected member |
|---|---|---|---|---|---|---|
| src/app/page.tsx:49-62 | the inner fade timeout is never stored in `timerRef`, so unmount cleanup cannot cancel it; when it fires it calls `scheduleNext` and starts a new change timer | unmount during the 1 s fade window between the two timeouts | every pending timeout is tracked, so unmount leaves nothing scheduled | not executed | HomePage.LeakAfterUnmount | HomePage.NoLeakWhenTracked |
| src/components/StarFieldFallback.tsx:121-264 | the mount effect has no dependencies, so the animation loop keeps calling the first render's `animate` and its `render`, whose `starLess` is the mount-time one; a later `starLess` reaches only the canvas's CSS opacity | mount with `starLess` false, then pass true: the stars stay drawn at their own opacity (0.2 to 0.8) instead of 0.2 | `render` lists `starLess` as a dependency, so the stars are meant to follow the current prop | medium, not executed | StarFieldFallback.StaleStarLess | StarFieldFallback.FollowsStarLess |
