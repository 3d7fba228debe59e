# GameJar engine core in Dafny

GameJar is a small Java 2D game engine. A `GameWorld` holds entities in an
`EntityList` kept in ascending order of z-height. It advances them on a
fixed-rate main loop: on each tick it first calls every entity's
`update(dt)`, then asks its `Camera` to render. The camera projects the
entities whose `Transform` rectangle intersects its view from world
coordinates onto the window's pixels. It draws them in list order and asks
the window to repaint.

This project models that core and proves properties of it:

- `numerics.dfy` (module `JavaNumerics`): Java's 32-bit `int`, wrap-around
  arithmetic, and the `(int)` cast of a double. The cast truncates toward zero
  and saturates.
- `geometry.dfy` (module `Geometry`): rectangles as values, and the
  intersection test of `java.awt.geom.Rectangle2D` as the JDK documents it.
  It also holds the mutable `Transform` class with its setters.
- `entities.dfy` (module `Entities`): the `Entity` class, its `update`
  behaviours, and `compareTo`.
- `entitylists.dfy` (module `EntityLists`): the `EntityList` class. It keeps three
  invariants:
  - the list is sorted by height;
  - it has no duplicates;
  - every entity owns its transform.

  It also proves the exact result of each operation.
- `camera.dfy` (module `Graphics`):
  - the projection, as functions over the reals with the Java cast;
  - the `Camera` class;
  - `render` as a method that returns the trace of drawing calls it makes.
- `world.dfy` (module `World`):
  - the main-loop thread's lifecycle as an explicit state machine;
  - the tick arithmetic over millisecond clock readings;
  - the `GameWorld` class: delegation, `simulate`, and one iteration of the
    main loop with the clock reading as a parameter.

Doubles are modelled as `real`. Java's `(int)` cast is truncation toward zero,
clamped to the int range.

Three behaviours of the code are worth stating:

- **Equal heights.** The drawing order of entities of equal height is left
  undefined in `Entity.java:29-33`, but `EntityList.java:34-41` fixes it. An
  entity added to a sorted list goes at the lower bound, before every entity
  of equal height.
- **Touching edges.** Two rectangles whose edges only touch do not intersect.
  Culling uses `Rectangle2D.intersects`, whose documented contract is strict.
- **The debug oval.** It is drawn around `(-view.x, -view.y)` in pixels
  (`Camera.java:152`). It is centred on the projected world origin when the
  scale is one, or when the view's corner is at the world origin, as it is for
  a camera made to fill the window. Otherwise it need not be centred there: a
  view at (10, 0) of size 200 x 100 on a 400 x 200 display projects the origin
  to x = -20, while the oval is centred on x = -10
  (see `Graphics.OriginMarkerIgnoresZoom`).

## Model

| member | source | states |
|---|---|---|
| JavaNumerics.Wrap32 | src/gj/entities/Entity.java:98 | an int result equals the mathematical value when that fits in 32 bits, and is always congruent to it modulo 2^32 |
| JavaNumerics.Trunc | src/gj/graphics/Camera.java:139-140 | defined as the floor of a non-negative value and minus the floor of minus a negative one, i.e. rounding toward zero (properties in TruncTowardZero) |
| JavaNumerics.IntCast | src/gj/graphics/Camera.java:134-140 | defined as Trunc clamped to [INT_MIN, INT_MAX], Java's narrowing of a non-NaN double (properties in IntCastSaturates and IntCastOfInt) |
| JavaNumerics.TruncTowardZero | src/gj/graphics/Camera.java:139-140 | the (int) cast drops the fractional part toward zero, for positive and negative values alike |
| JavaNumerics.IntCastSaturates | src/gj/graphics/Camera.java:139-140 | the (int) cast truncates inside the int range and clamps to INT_MAX / INT_MIN outside it |
| JavaNumerics.IntCastOfInt | src/gj/graphics/Camera.java:134-140 | casting a whole number that fits in an int gives that number back |
| Geometry.IntersectsSymmetric | src/gj/entities/EntityList.java:61 | the region/entity intersection test does not depend on argument order |
| Geometry.IntersectsTranslationInvariant | src/gj/entities/EntityList.java:61 | moving the region and the entity by the same offset never changes whether they intersect |
| Geometry.IntersectsOutsideAndOverlap | src/gj/entities/EntityList.java:61 | a rectangle wholly on one side of the region (touching edges included) is culled; two non-empty rectangles intersect exactly when their overlap is positive in both axes |
| Geometry.Transform.constructor | src/gj/util/Transform.java:22-24 | the transform holds exactly the given x, y and the int width and height as reals |
| Geometry.Transform.SetX | src/gj/util/Transform.java:26-28 | x becomes the new value; y, width and height are unchanged, and only position fields may be written |
| Geometry.Transform.SetY | src/gj/util/Transform.java:30-32 | y becomes the new value; x, width and height are unchanged |
| Geometry.Transform.SetPosition | src/gj/util/Transform.java:34-36 | x and y become the new values; the size is unchanged |
| Geometry.Transform.Translate | src/gj/util/Transform.java:38-40 | the position moves by (dx, dy); the size is unchanged |
| Geometry.Transform.SetWidth | src/gj/util/Transform.java:42-44 | width becomes the new value; height and the position are unchanged, and only size fields may be written |
| Geometry.Transform.SetHeight | src/gj/util/Transform.java:46-48 | height becomes the new value; width and the position are unchanged |
| Geometry.Transform.SetSize | src/gj/util/Transform.java:50-52 | width and height become the new values; the position is unchanged |
| Geometry.Transform.Scale | src/gj/util/Transform.java:54-56 | width and height are multiplied by the factor; the position is unchanged |
| Geometry.TranslateInverse | src/gj/util/Transform.java:38-40 | translating by (dx, dy) and then by (-dx, -dy) restores the rectangle |
| Geometry.TranslateCompose | src/gj/util/Transform.java:38-40 | two translations equal one translation by the summed offsets |
| Geometry.ScaleProperties | src/gj/util/Transform.java:54-56 | scaling keeps the position, successive scales multiply, and a negative factor is accepted and yields an empty rectangle |
| Geometry.TranslateRoundTrip | src/gj/util/Transform.java:38-40 | on the mutable transform, translate(dx, dy) followed by translate(-dx, -dy) leaves it exactly as it was |
| Entities.Advanced | src/gj/entities/Entity.java:83-85 | defined as the rectangle unchanged for the base update, and translated by (vx * dt, vy * dt) for the demo's override at MainSandbox.java:32-33 |
| Entities.Entity.constructor | src/gj/entities/Entity.java:36-40 | the transform is fresh and starts at (initX, initY) with the image's size; image and height are as given; the entity owns its transform |
| Entities.Entity.AtGroundLevel | src/gj/entities/Entity.java:42-44 | the three-argument constructor is the four-argument one with height 0 |
| Entities.Entity.Drifting | src/gj/MainSandbox.java:30-35 | the demo's overriding entity is built like the four-argument one, with a translating update |
| Entities.Entity.Update | src/gj/entities/Entity.java:83-85 | update may write only its own transform's position; the default update changes nothing, and the overriding one translates by (vx*dt, vy*dt) |
| Entities.Entity.CompareTo | src/gj/entities/Entity.java:96-99 | when the height difference fits in an int, the sign of compareTo is the order of the heights (both directions) |
| Entities.HeightDifference | src/gj/entities/Entity.java:98 | the int subtraction equals the true difference whenever that fits in an int |
| Entities.HeightDifferenceOverflows | src/gj/entities/Entity.java:96-99 | for heights INT_MAX and -1 the greater height compares as smaller, and INT_MIN compares below 0 both ways round |
| Entities.CompareHeights | src/gj/entities/Entity.java:96-99 | the corrected comparison's sign is the order of the heights for every pair of ints |
| Entities.CompareHeightsIsOrder | src/gj/entities/Entity.java:96-99 | the corrected comparison is antisymmetric and transitive |
| EntityLists.LowerBound | src/gj/entities/EntityList.java:34-40 | the insertion index: every entity before it is strictly lower, the one at it is at least as high |
| EntityLists.IndexOf | src/gj/entities/EntityList.java:45-47 | remove(ent) finds the first occurrence of ent |
| EntityLists.Visible | src/gj/entities/EntityList.java:58-65 | the result holds only entities of the list that intersect the region, and every such entity of the list |
| EntityLists.InsertAtLowerBoundSorted | src/gj/entities/EntityList.java:34-41 | inserting at the lower bound keeps a sorted list sorted |
| EntityLists.InsertedFreshKeepsOrder | src/gj/entities/EntityList.java:37-41 | inserting a new entity grows the list by one, puts the entity at the index, keeps the rest in their relative order, and introduces no duplicate |
| EntityLists.InsertKeepsInvariant | src/gj/entities/EntityList.java:30-43 | insertion at the lower bound preserves sortedness, no duplicates and transform ownership |
| EntityLists.RemovedAtKeepsInvariant | src/gj/entities/EntityList.java:45-47 | removing one element keeps sortedness and no duplicates, removes that entity entirely, and adds nothing |
| EntityLists.VisibleSorted | src/gj/entities/EntityList.java:58-65 | the intersecting entities come out in ascending height order |
| EntityLists.VisibleNoDuplicates | src/gj/entities/EntityList.java:58-65 | the intersecting entities come out at most once each |
| EntityLists.EntityList.constructor | src/gj/entities/EntityList.java:26-28 | a new list is empty and valid |
| EntityLists.EntityList.AddEntity | src/gj/entities/EntityList.java:30-43 | returns false and leaves the list unchanged if the entity is present; otherwise returns true and inserts it exactly at the lower bound; the invariants hold afterwards |
| EntityLists.EntityList.RemoveEntity | src/gj/entities/EntityList.java:45-47 | returns true iff the entity was present, then removes exactly that occurrence keeping the order of the rest; otherwise the list is unchanged |
| EntityLists.EntityList.GetIntersectingEntities | src/gj/entities/EntityList.java:58-65 | the buffer is exactly the subsequence of the list whose transforms intersect the region, in list order |
| Graphics.Project | src/gj/graphics/Camera.java:133-140 | defined as the offset from the view's corner and the entity's width and height, each multiplied by the display size over the view size along its axis and cast with (int) |
| Graphics.ScaleFactor | src/gj/graphics/Camera.java:134-140 | defined as dispMode width (height) over view width (height), the pixels per logical unit (properties in ScaleFactorCancels and ScaleFactorUnit) |
| Graphics.ToPixel | src/gj/graphics/Camera.java:133-140 | defined as the (int) cast of a logical length or offset times the scale factor |
| Graphics.EntityCalls | src/gj/graphics/Camera.java:141-146 | defined as the drawImage call at the projection, then when debugging the label at (physicalX, physicalY + 10) in int arithmetic (properties in EntityImages) |
| Graphics.SceneCalls | src/gj/graphics/Camera.java:129-147 | defined as the calls of EntityCalls for each placed entity, one entity after another in the order the loop visits them (properties in SceneCallsSnoc, SceneImages and PlacementsDrawn) |
| Graphics.Overlay | src/gj/graphics/Camera.java:150-159 | defined as the oval at ((int)-view.x - 5, (int)-view.y - 5) of size 10 x 10, then the five text lines at x = 2 and y = 10, 25, 40, 55, 70 (properties in FrameShape, OriginMarkerAtUnitScale, OriginMarkerAtViewOrigin and OriginMarkerIgnoresZoom) |
| Graphics.FrameCalls | src/gj/graphics/Camera.java:124-161 | defined as the scene's calls, then the overlay only when debugging, then exactly one repaint as the last call (properties in FrameShape, FrameImages, RepaintsOnceAtEnd and FrameDrawsVisible) |
| Graphics.ScaleFactorCancels | src/gj/graphics/Camera.java:134-140 | the view's extent times the scale factor is the display's extent |
| Graphics.ScaleFactorUnit | src/gj/graphics/Camera.java:88-91 | a view as large as the display has scale factor one |
| Graphics.ToPixelFullExtent | src/gj/graphics/Camera.java:133-136 | the view's whole width (height) becomes exactly the display's width (height) in pixels |
| Graphics.ToPixelZero | src/gj/graphics/Camera.java:139-140 | a zero logical offset is a zero pixel offset at any scale |
| Graphics.ProjectViewCorner | src/gj/graphics/Camera.java:139-140 | an entity at the view's corner is drawn at pixel (0, 0) |
| Graphics.ProjectFillsDisplay | src/gj/graphics/Camera.java:133-140 | an entity exactly filling the view is drawn at (0, 0) with the display's width and height |
| Graphics.ProjectPanInvariant | src/gj/graphics/Camera.java:139-140 | moving the view and an entity by the same amount leaves the entity's screen rectangle unchanged |
| Graphics.ProjectOneToOne | src/gj/graphics/Camera.java:133-140 | with the full-window view of the two-argument constructor, pixels are the logical coordinates under the (int) cast |
| Graphics.Placements | src/gj/graphics/Camera.java:129-140 | one placement per visible entity, for that entity, in the same order |
| Graphics.PlacementsCharacterized | src/gj/graphics/Camera.java:129-141 | any sequence placing each visible entity at its projection, in order, is the placements sequence |
| Graphics.PlacementsProject | src/gj/graphics/Camera.java:133-141 | each visible entity is drawn at its projection, with its scaled size |
| Graphics.SceneCallsSnoc | src/gj/graphics/Camera.java:129-147 | drawing one more entity appends exactly that entity's calls |
| Graphics.EntityImages | src/gj/graphics/Camera.java:141-146 | drawing one entity draws that entity's image exactly once |
| Graphics.SceneImages | src/gj/graphics/Camera.java:129-147 | the entity loop draws each placed entity's image once, in order, and otherwise only labels, and those only when debugging |
| Graphics.FrameImages | src/gj/graphics/Camera.java:128-161 | a whole frame draws exactly the placed entities' images, in order; the overlay and repaint draw no image |
| Graphics.FrameShape | src/gj/graphics/Camera.java:144-161 | a frame ends with its only repaint; without debugging it holds nothing but images and that repaint |
| Graphics.PlacementsDrawn | src/gj/graphics/Camera.java:128-141 | reading the entities back from their placements gives the visible entities |
| Graphics.FrameDrawsVisible | src/gj/graphics/Camera.java:128-141 | the frame for a sequence of entities draws exactly those entities' images, in order, each once |
| Graphics.OriginMarkerAtUnitScale | src/gj/graphics/Camera.java:152 | at one-to-one scale the debug oval is centred on the projected world origin |
| Graphics.OriginMarkerAtViewOrigin | src/gj/graphics/Camera.java:152 | at any zoom the debug oval is centred on the projected world origin while the view's corner is at the world origin |
| Graphics.OriginMarkerIgnoresZoom | src/gj/graphics/Camera.java:152 | otherwise the oval need not be centred on the projected origin, for example view (10, 0, 200, 100) on 400 x 200: origin at x = -20, oval centred at x = -10 |
| Graphics.Camera.constructor | src/gj/graphics/Camera.java:72-77 | the view is a fresh transform holding the given int rectangle, owned by the camera; debugging is off |
| Graphics.Camera.FullView | src/gj/graphics/Camera.java:88-91 | the view is (0, 0, display width, display height); debugging is off |
| Graphics.Camera.SetDebugVisuals | src/gj/graphics/Camera.java:109-111 | the flag becomes the argument and only the flag may change |
| Graphics.Camera.Render | src/gj/graphics/Camera.java:120-163 | without a graphics context nothing is drawn and there is no repaint. Otherwise the trace is the frame of the view-intersecting entities at their projections; it draws exactly those entities' images, once each, in list order; it ends with its only repaint; without debugging it draws nothing else |
| Graphics.Camera.DrawEntities | src/gj/graphics/Camera.java:129-147 | the loop's calls are, entity by entity in order, the image at its projection and, when debugging, the label 10 pixels lower |
| World.AfterStart | src/gj/GameWorld.java:73-75 | defined as: a never-started thread starts running; any other state is left as it is (the refused start) |
| World.AfterStop | src/gj/GameWorld.java:80-82 | defined as: a running loop gets an interrupt pending; any other state is left as it is |
| World.AfterLoopCheck | src/gj/GameWorld.java:103 | defined as: a pending interrupt ends the loop; otherwise the loop goes on |
| World.TickDue | src/gj/GameWorld.java:107 | defined as the negation of the skip test curTime < latestUpdate + 1000 / tickRate (properties in TickElapsed and TicksAccountForTime) |
| World.ElapsedSeconds | src/gj/GameWorld.java:110 | defined as (curTime - latestUpdate) / 1000.0, the elapsed time in seconds (properties in TickElapsed and TicksAccountForTime) |
| World.NextLatest | src/gj/GameWorld.java:107-111 | defined as: latestUpdate becomes curTime when the tick is due (line 111, reached only past the skip test at line 107), and stays as it is on a skipped iteration |
| World.Ticks | src/gj/GameWorld.java:103-111 | defined as the dts, in seconds, of the iterations of the while loop that are due, over a sequence of clock readings, with latestUpdate carried from one reading to the next by NextLatest (properties in TicksAccountForTime and TicksAtLeastInterval) |
| World.LatestAfter | src/gj/GameWorld.java:103-111 | defined as latestUpdate after the while loop has seen every clock reading, carried by NextLatest (properties in TicksAccountForTime) |
| World.NeverCreatedAgain | src/gj/GameWorld.java:67-75 | once started, no sequence of start/stop/loop checks makes the world startable again, and no later start succeeds |
| World.StartsAtMostOnce | src/gj/GameWorld.java:67-75 | over any history of calls, at most one start succeeds |
| World.TerminatedIsFinal | src/gj/GameWorld.java:100-116 | a loop that has exited stays exited whatever is called afterwards |
| World.TickInterval | src/gj/GameWorld.java:107 | 1000 / tickRate is the truncated quotient: between 0 and 1000, and the largest interval whose tickRate multiples fit in a second |
| World.TickElapsed | src/gj/GameWorld.java:107-110 | a tick's dt is the elapsed milliseconds over 1000, at least the nominal interval and never negative |
| World.TicksAccountForTime | src/gj/GameWorld.java:105-111 | over any clock readings, latestUpdate never decreases, and the dts of the fired ticks sum to the time between the first latestUpdate and the last |
| World.TicksAtLeastInterval | src/gj/GameWorld.java:105-110 | every fired tick's dt is at least the nominal interval |
| World.GameWorld.constructor | src/gj/GameWorld.java:51-57 | an empty entity list, a camera watching it over the whole window with debugging off, latestUpdate the current time, the thread not yet started |
| World.GameWorld.AddEntity | src/gj/GameWorld.java:59-61 | the result and the effect are exactly those of the list's addEntity |
| World.GameWorld.RemoveEntity | src/gj/GameWorld.java:63-65 | the result and the effect are exactly those of the list's removeEntity |
| World.GameWorld.SetDebugMode | src/gj/GameWorld.java:96-98 | the camera's debugging flag becomes the argument |
| World.GameWorld.Start | src/gj/GameWorld.java:73-75 | succeeds iff the thread was never started, and moves it to running; otherwise it is refused (IllegalThreadStateException) and nothing changes |
| World.GameWorld.Stop | src/gj/GameWorld.java:80-82 | a running loop gets an interrupt pending; any other state is unchanged |
| World.GameWorld.Simulate | src/gj/GameWorld.java:119-129 | update(dt) is called on the entities in exactly the list's (ascending height) order, recorded as updated; every entity's transform is advanced by its update(dt) exactly once; the list and its invariants are unchanged |
| World.GameWorld.RunIteration | src/gj/GameWorld.java:102-116 | a pending interrupt ends the loop with nothing else changed. An early reading skips the tick with latestUpdate and all transforms unchanged. Otherwise dt is the elapsed time and latestUpdate becomes curTime. Every entity is updated by that dt, in list order. The frame is then exactly Render's frame for the advanced positions with the same dt: it contains exactly the visible entities, and ends with its only repaint. latestUpdate never decreases |

## Left out

- The `MainLoop` thread, `Thread.interrupt`, `isInterrupted` and busy-waiting are not modelled. One loop iteration is `RunIteration` with `System.currentTimeMillis()` passed in as `curTime`. The thread's state is the explicit `Lifecycle`, and the interrupt is seen only at the top of an iteration, so a tick in progress always completes.
- `World.GameWorld.Stop`: the Javadoc of `Thread.interrupt` says an interrupt of a thread that is not alive "need not have any effect", which allows either outcome. The model takes the no-effect reading. So in the model, `stop()` followed by `start()` on a never-started world runs the loop. The single-use promise at `GameWorld.java:17-18` is about a world that was started and then stopped.
- `World.GameWorld.RunIteration` requires `tickRate > 0`.
  - `1000 / tickRate` throws for 0.
  - The requires also excludes negative rates, which Java accepts. With a negative rate, `1000 / -60 == -16`, so every reading at most 16 ms before `latestUpdate` ticks. The model does not cover that case.
  - It also requires that the thread is running or has an interrupt pending, because only the started thread runs the loop.
- The `long` timestamps are unbounded integers, so overflow of `latestUpdate + 1000 / tickRate` is not modelled.
- Doubles are reals: floating-point rounding, Infinity and NaN are not modelled. Projection requires a non-empty view, where Java would divide by zero. `render` never projects with an empty view, because nothing intersects one.
- AWT drawing is recorded as `DrawCall` values:
  - `getScaledInstance` becomes the projected width and height.
  - The entity description string, fonts and colours are not modelled.
  - The FPS line is kept as `dt`, not as `1.0 / dT`.
- `World.GameWorld.RunIteration`: `getScaledInstance` throws IllegalArgumentException when a scaled width or height is 0, for example a 5-unit entity in a 10000-unit-wide view on a 1000-pixel display, where (int)0.5 = 0 (`Camera.java:133-136`). Nothing catches it in `MainLoop.run` (`GameWorld.java:114`), so the loop's thread ends there. The model does not capture this: the trace records the call and the lifecycle stays Running.
- Graphics context and display mode are parameters of `render`. `getOffscreenGraphics` is a flag saying whether a context exists; `getCurrentDisplayMode` is a `DisplayMode` value.
- `Rectangle2D.intersects` is JDK code that is not part of this model. It is stated as `Geometry.Intersects` from its documented contract.
- `Camera` holds the world's `EntityList` rather than the `GameWorld`. It uses only the world's `getIntersectingEntities` and `getAllEntities`, which delegate to that list.
- `EntityList.iterator` and `getAllEntities` hand out the live internal list. The model reads the field `ents` directly. Sequences are values, so the aliasing of the returned collection is not captured.
- These accessors are `const` fields read directly:
  - `GameWorld.getAllEntities`, `getIntersectingEntities` and `getCamera`;
  - `Entity.getZHeight`, `getImage` and `getTransform`;
  - `Camera.getTransform`.
- `Entity.java:16-20` says an entity's transform size is always kept equal to its image's size. The code does not enforce this: `getTransform()` hands out `setSize` and `scale`. So the model states no such invariant.
- `Entity.toString` and `update` overrides other than the demo's translating one are not modelled. `Behaviour` covers the base `update` and the translation in `MainSandbox.java`.
- `RenderWindow`, `RenderPanel` and the rest of `MainSandbox` are window-system plumbing and are not part of this model.

## Findings

| source | as written | input that shows it | evidently intended | confidence | as-written member | corrected member |
|---|---|---|---|---|---|---|
| src/gj/entities/Entity.java:96-99 | `compareTo` returns `zHeight - other.zHeight` in 32-bit int arithmetic | heights `INT_MAX` and `-1`: the difference wraps to a negative number, so the higher entity compares as lower; `INT_MIN` compares below `0` both ways round | a comparison whose sign is the height order for all ints (`Integer.compare`) | not executed | Entities.HeightDifferenceOverflows | Entities.CompareHeightsIsOrder |
