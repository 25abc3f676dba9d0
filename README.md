# Portfolio page logic, modelled in Dafny

The portfolio site is one React page, `src/pages/Index.tsx`. Almost all of it is static markup. Three pieces hold logic, and this project models them and proves what they promise:

- **Project carousel** (module `Carousel`). `currentProjectIndex` starts at 0. The arrow buttons call the scroll handler with direction -1 or +1. Each call moves the index by two cards, but only when the target is still an index of the six-entry `projects` list. Each arrow's `disabled` attribute is a predicate of the index. The row of cards is translated by `(index / 2) * 100` percent. The state is the class `CarouselState`, and its `Scroll` method is proved against the function `Step`.
- **Dot grid** (module `DotGrid`). Nested loops over 40 rows and 60 columns create the background dots. Each dot gets a row-major slot `i * 60 + j` and `left` / `top` positions of `j / 60 * 100` and `i / 40 * 100` percent. `GenerateDots` keeps the loops and is proved equal to the reference definition `Grid`.
- **Proximity effect** (module `Proximity`). The page keeps the dot elements in an array (`dotsRef`). A slot stays empty until that dot's ref callback has run. On each mouse move, every attached dot takes its new translation, scale and opacity from its distance to the pointer, with influence `max(0, 1 - d / 150)`. On mouse leave, every attached dot returns to the neutral state: no translation, scale 1, opacity 0.2. The class `ProximityField` holds the array as `array<Option<DotState>>`. Its handlers are proved against the functions `Moved` and `Reset`.

The style of a dot is a numeric record `DotState(offsetX, offsetY, scale, opacity)`, not the CSS strings the page writes. Browser numbers are modelled as `real`. The geometry of each dot is an input (`Sample`): its distance to the pointer, and the cosine and sine of the angle from the pointer to the dot. The page gets these from `getBoundingClientRect`, `Math.sqrt`, `Math.atan2`, `Math.cos` and `Math.sin`.

Two details of the code shape the model:
- The leave handler skips empty slots (`if (dot)`, `Index.tsx:49`).
- A dot's centre is measured from its rendered box (`Index.tsx:22-24`): the box's top-left corner plus half its size, after the dot's current CSS transform.

## Model

| member | source | states |
|---|---|---|
| `Carousel.StepMovesWithinBounds` | src/pages/Index.tsx:138-143 | A scroll sets the index to `index + 2 * direction` exactly when that target lies in `[0, 6)` (or the direction is 0); otherwise the index is unchanged |
| `Carousel.StepKeepsValid` | src/pages/Index.tsx:139-141 | From an even index in `[0, 6)`, one scroll in any direction gives an even index in `[0, 6)` |
| `Carousel.RunKeepsValid` | src/pages/Index.tsx:138-143 | Any sequence of scrolls from a valid index ends at a valid index (even, in range); proved by induction on the clicks |
| `Carousel.ReachableIsValid` | src/pages/Index.tsx:7 | Every index reachable from the initial index 0 by arrow clicks is even and in `[0, 6)` |
| `Carousel.RightClicksAdvance` | src/pages/Index.tsx:278-281 | `n` right-arrow clicks advance the index by exactly `2 * n` while the target stays a project |
| `Carousel.ValidIsReachable` | src/pages/Index.tsx:278-281 | Every even index in `[0, 6)` is reached from 0 by `index / 2` right clicks, so the reachable indices are exactly the valid ones |
| `Carousel.LeftArrowMatchesGuard` | src/pages/Index.tsx:250-254 | On a valid index the left arrow is disabled iff a left click would leave the index unchanged; when enabled a left click moves back two cards |
| `Carousel.RightArrowMatchesGuard` | src/pages/Index.tsx:278-282 | On a valid index the right arrow is disabled iff a right click would leave the index unchanged; when enabled a right click moves forward two cards |
| `Carousel.Offset` | src/pages/Index.tsx:262 | For an even index the card-row translation is a whole multiple of 100 percent, `(index / 2) * 100` |
| `Carousel.OffsetMonotone` | src/pages/Index.tsx:262 | The translation never decreases as the index grows |
| `Carousel.ValidOffsets` | src/pages/Index.tsx:253-281 | On a valid index the translation is 0, 100 or 200 percent; it is 0 iff the left arrow is disabled and 200 iff the right arrow is disabled |
| `Carousel.CarouselState.constructor` | src/pages/Index.tsx:7 | The carousel starts at index 0, a valid index |
| `Carousel.CarouselState.Scroll` | src/pages/Index.tsx:138-143 | The handler leaves the index at `Step(old index, direction)` and keeps it valid |
| `DotGrid.Percent` | src/pages/Index.tsx:83-84 | Position `n` of `total` steps in percent lies in `[0, 100)` and is 0 only for `n = 0` |
| `DotGrid.Layout` | src/pages/Index.tsx:70-89 | The dot in row `i`, column `j` gets slot `i * 60 + j` below 2400, and `left` / `top` percentages in `[0, 100)` |
| `DotGrid.Grid` | src/pages/Index.tsx:65-94 | The grid has exactly `40 * 60 = 2400` dots |
| `DotGrid.DotIndexInRange` | src/pages/Index.tsx:73 | Every grid dot's slot lies in `[0, 2400)` |
| `DotGrid.DotIndexRoundTrip` | src/pages/Index.tsx:73 | Row and column are recovered from a slot by division and remainder by 60 |
| `DotGrid.DotIndexInjective` | src/pages/Index.tsx:70-73 | Distinct `(i, j)` pairs of the grid get distinct slots |
| `DotGrid.SlotInGrid` | src/pages/Index.tsx:70-78 | Every slot below 2400 is the slot of exactly one grid dot, so the ref array is filled without gaps |
| `DotGrid.GridAt` | src/pages/Index.tsx:70-90 | The dot pushed for row `i`, column `j` sits at position `i * 60 + j` of the grid |
| `DotGrid.GenerateDots` | src/pages/Index.tsx:65-94 | The nested loops build exactly `Grid()`: 2400 dots, the `k`-th pushed dot having slot `k` |
| `Proximity.Influence` | src/pages/Index.tsx:30-31 | For `d >= 0` influence lies in `[0, 1]`, is 1 at `d = 0`, and is 0 iff `d >= 150` |
| `Proximity.InfluenceNonIncreasing` | src/pages/Index.tsx:30-31 | Influence is non-increasing in the distance |
| `Proximity.Respond` | src/pages/Index.tsx:33-43 | A dot gets the neutral state iff the pointer is at least 150 away; closer, its scale lies in `(1, 1.5]` and its opacity in `(0.2, 0.8]`, with 1.5 and 0.8 on the dot; the offset is the unit direction scaled by `influence * 30` |
| `Proximity.RespondMonotone` | src/pages/Index.tsx:33-39 | A closer pointer never gives a smaller scale or a lower opacity |
| `Proximity.OffsetLength` | src/pages/Index.tsx:34-38 | For a unit direction, the dot moves exactly `influence * 30` pixels |
| `Proximity.Moved` | src/pages/Index.tsx:19-44 | A mouse move gives one slot per slot of the dot array |
| `Proximity.Reset` | src/pages/Index.tsx:47-54 | A mouse leave gives one slot per slot of the dot array |
| `Proximity.ResetNeutral` | src/pages/Index.tsx:48-52 | After a leave every attached dot is neutral and every empty slot is still empty |
| `Proximity.ResetIdempotent` | src/pages/Index.tsx:47-54 | Two leaves give the same dots as one |
| `Proximity.HandlersKeepPresence` | src/pages/Index.tsx:19-54 | Neither handler attaches or detaches a dot |
| `Proximity.MoveForgetsHistory` | src/pages/Index.tsx:19-44 | After a move, the dots' states depend only on this event's samples and on which slots are attached, not on the dots' earlier states |
| `Proximity.LeaveUndoesMove` | src/pages/Index.tsx:19-54 | A leave after any move gives the same dots as a leave alone |
| `Proximity.FarMoveIsLeave` | src/pages/Index.tsx:30-43 | A move with every dot at least 150 away has the same effect as a leave |
| `Proximity.ProximityField.constructor` | src/pages/Index.tsx:6 | The dot array starts with 2400 empty slots |
| `Proximity.ProximityField.AttachRef` | src/pages/Index.tsx:77-79 | A ref callback stores its element at the dot's slot, and a callback with no element changes nothing |
| `Proximity.ProximityField.Mount` | src/pages/Index.tsx:74-89 | After the ref callbacks of the whole grid every one of the 2400 slots holds a dot in the neutral (initial) style |
| `Proximity.ProximityField.HandleMouseMove` | src/pages/Index.tsx:14-45 | The handler leaves the array equal to `Moved` of its old contents: empty slots skipped, attached dots given their `Respond` state |
| `Proximity.ProximityField.HandleMouseLeave` | src/pages/Index.tsx:47-54 | The handler leaves the array equal to `Reset` of its old contents, in place |

## Left out

- `src/components/MouseTracker.tsx`: it only copies the pointer coordinates into two CSS custom properties and registers a listener; there is no logic to state.
- Geometry queries (`getBoundingClientRect`, `Index.tsx:15-24`) and the distance and angle computations (`Math.sqrt`, `Math.atan2`, `Math.cos`, `Math.sin`, `:26-36`): foreign and transcendental; each dot's distance and direction enter as a `Sample`.
- Proximity.Respond: the direction (`cosAngle`, `sinAngle`) is taken as given, so "away from the pointer" is not proved; in particular, with the pointer exactly on a dot's centre `atan2(0, 0)` is 0 and the dot moves 30 pixels to the right.
- Floating-point rounding: numbers are exact reals, so properties such as opacity exactly 0.8 hold of the formula, not of IEEE doubles.
- The CSS strings written to `transform` and `opacity`, the dots' `key`, animation delay and duration, and CSS transitions: presentation only.
- React rendering and effect subscription and cleanup (`:56-62`), `scrollToSection` (`:134-136`), and the text of projects, skills and experience other than the number of projects: UI and I/O.
- Proximity.ProximityField.Mount: React may call a dot's ref callback again with `null` on a later render; `AttachRef` models that call (it changes nothing), but the order of React's calls is not modelled.
- Proximity.MoveForgetsHistory: a sample is an input here, but the page measures it from the dot's transformed box (`Index.tsx:22`), which includes the offset written by the previous move (`:38`) and any transition still running (`:80`); so in the page a dot's new state can depend on its earlier offset, and the lemma holds only for samples as given.
- Proximity.ProximityField.constructor: the page's ref array starts empty (`useRef([])`, `:6`) and grows by index assignment (`:78`); the model pre-sizes it to 2400 empty slots. The handlers' `forEach` visits only assigned entries, so they behave the same, and every grid index is below 2400 (`DotGrid.DotIndexInRange`), so the bound that `AttachRef` requires excludes no call the page makes.
- Carousel.Step: the scroll direction is an integer, while the handler's parameter is a JavaScript number (`:138`); the page only ever passes -1 and +1 (`:251`, `:279`).
