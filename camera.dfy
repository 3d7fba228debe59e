/** src/gj/graphics/Camera.java: a view rectangle in world space, projected
    onto the physical display.  Rendering culls to the entities that intersect
    the view and draws them in list (ascending height) order.  The AWT drawing
    calls are recorded as a trace of DrawCall values instead of being made. */
module Graphics {
  import opened JavaNumerics
  import opened Geometry
  import opened Entities
  import opened EntityLists

  /** The window's current display mode: its resolution in pixels. */
  datatype DisplayMode = DisplayMode(width: Int32, height: Int32)

  /** A rectangle in physical (pixel) coordinates. */
  datatype ScreenRect = ScreenRect(x: Int32, y: Int32, width: Int32, height: Int32)

  /** The values the debug overlay prints (the strings themselves are not
      modelled).  FramesPerSecond(dt) is the line showing 1.0 / dt. */
  datatype OverlayLine =
    | FramesPerSecond(dt: real)
    | TotalEntities(count: int)
    | RenderedEntities(count: int)
    | CameraPosition(x: real, y: real)
    | CameraSize(width: real, height: real)

  /** One call render makes on the offscreen graphics or the window. */
  datatype DrawCall =
    | DrawImage(entity: Entity, at: ScreenRect)       // image scaled to at's size, drawn at at's corner
    | DrawLabel(entity: Entity, x: Int32, y: Int32)   // the entity's description
    | DrawOval(x: Int32, y: Int32, width: Int32, height: Int32)
    | DrawText(line: OverlayLine, x: Int32, y: Int32)
    | Repaint

  /** The logical-to-physical map: offset by the view's corner, then scale by
      display size over view size, each coordinate cast with Java's (int). */
  function Project(view: Rect, display: DisplayMode, r: Rect): ScreenRect
    requires !IsEmpty(view)
  {
    var scaleX := ScaleFactor(display.width, view.width);
    var scaleY := ScaleFactor(display.height, view.height);
    ScreenRect(ToPixel(r.x - view.x, scaleX), ToPixel(r.y - view.y, scaleY),
               ToPixel(r.width, scaleX), ToPixel(r.height, scaleY))
  }

  /** Physical pixels per logical unit along one axis. */
  function ScaleFactor(displaySize: Int32, viewSize: real): real
    requires viewSize > 0.0
  {
    displaySize as real / viewSize
  }

  /** One logical length or offset in pixels, cast with Java's (int). */
  function ToPixel(logical: real, scale: real): Int32 {
    IntCast(logical * scale)
  }

  /** The view's extent along an axis is scaled onto the display's extent
      exactly. */
  lemma ScaleFactorCancels(displaySize: Int32, viewSize: real)
    requires viewSize > 0.0
    ensures viewSize * ScaleFactor(displaySize, viewSize) == displaySize as real
  {
  }

  /** A view as large as the display has scale one. */
  lemma ScaleFactorUnit(displaySize: Int32, viewSize: real)
    requires viewSize > 0.0 && viewSize == displaySize as real
    ensures ScaleFactor(displaySize, viewSize) == 1.0
  {
    ScaleFactorCancels(displaySize, viewSize);
    UnitFactor(viewSize, ScaleFactor(displaySize, viewSize), displaySize as real);
  }

  /** A factor that maps a positive length onto itself is one. */
  lemma UnitFactor(length: real, factor: real, image: real)
    requires length > 0.0 && length * factor == image && image == length
    ensures factor == 1.0
  {
  }

  /** The view's whole extent is the display's whole extent in pixels. */
  lemma ToPixelFullExtent(displaySize: Int32, viewSize: real)
    requires viewSize > 0.0
    ensures ToPixel(viewSize, ScaleFactor(displaySize, viewSize)) == displaySize
  {
    ScaleFactorCancels(displaySize, viewSize);
    IntCastOfInt(displaySize);
  }

  /** A zero logical offset is a zero pixel offset at any scale. */
  lemma ToPixelZero(scale: real)
    ensures ToPixel(0.0, scale) == 0
  {
    IntCastOfInt(0);
  }

  /** An entity at the view's corner is drawn at the display's corner. */
  lemma ProjectViewCorner(view: Rect, display: DisplayMode, r: Rect)
    requires !IsEmpty(view) && r.x == view.x && r.y == view.y
    ensures Project(view, display, r).x == 0 && Project(view, display, r).y == 0
  {
    ToPixelZero(ScaleFactor(display.width, view.width));
    ToPixelZero(ScaleFactor(display.height, view.height));
  }

  /** An entity exactly filling the view fills the display exactly. */
  lemma ProjectFillsDisplay(view: Rect, display: DisplayMode)
    requires !IsEmpty(view)
    ensures Project(view, display, view) == ScreenRect(0, 0, display.width, display.height)
  {
    var scaleX := ScaleFactor(display.width, view.width);
    var scaleY := ScaleFactor(display.height, view.height);
    assert view.x - view.x == 0.0 && view.y - view.y == 0.0;
    ToPixelZero(scaleX);
    ToPixelZero(scaleY);
    ToPixelFullExtent(display.width, view.width);
    ToPixelFullExtent(display.height, view.height);
  }

  /** Panning: moving the view and the entity by the same amount leaves the
      entity where it was on the screen. */
  lemma ProjectPanInvariant(view: Rect, display: DisplayMode, r: Rect, dx: real, dy: real)
    requires !IsEmpty(view)
    ensures Project(Translated(view, dx, dy), display, Translated(r, dx, dy)) == Project(view, display, r)
  {
    var view', r' := Translated(view, dx, dy), Translated(r, dx, dy);
    assert r'.x - view'.x == r.x - view.x;
    assert r'.y - view'.y == r.y - view.y;
  }

  /** A view the size of the display at the origin maps logical to physical
      coordinates one to one (up to the int cast). */
  lemma ProjectOneToOne(display: DisplayMode, r: Rect)
    requires display.width > 0 && display.height > 0
    ensures var view := Rect(0.0, 0.0, display.width as real, display.height as real);
            Project(view, display, r) == ScreenRect(IntCast(r.x), IntCast(r.y), IntCast(r.width), IntCast(r.height))
  {
    ScaleFactorUnit(display.width, display.width as real);
    ScaleFactorUnit(display.height, display.height as real);
  }

  /** A visible entity together with where it lands on the screen. */
  datatype Placed = Placed(entity: Entity, at: ScreenRect)

  /** The entities es with their projections, in order. */
  function Placements(es: seq<Entity>, view: Rect, display: DisplayMode): (r: seq<Placed>)
    reads set e | e in es :: e.transform
    requires !IsEmpty(view) || es == []
    ensures |r| == |es|
    ensures forall k :: 0 <= k < |r| ==> r[k].entity == es[k]
  {
    if es == [] then []
    else
      var last := es[|es| - 1];
      Placements(es[..|es| - 1], view, display) + [Placed(last, Project(view, display, last.transform.Bounds()))]
  }

  /** The calls drawing one visible entity: its image, then, when debugging,
      its description 10 pixels lower. */
  function EntityCalls(p: Placed, debugging: bool): seq<DrawCall> {
    [DrawImage(p.entity, p.at)] + if debugging then [DrawLabel(p.entity, p.at.x, Wrap32(p.at.y + 10))] else []
  }

  /** The calls drawing the placed entities, in order. */
  function SceneCalls(placed: seq<Placed>, debugging: bool): seq<DrawCall> {
    if placed == [] then []
    else SceneCalls(placed[..|placed| - 1], debugging) + EntityCalls(placed[|placed| - 1], debugging)
  }

  /** Placements is the only sequence that places each entity at its
      projection. */
  lemma {:induction false} PlacementsCharacterized(es: seq<Entity>, placed: seq<Placed>, view: Rect, display: DisplayMode)
    requires !IsEmpty(view) || es == []
    requires |placed| == |es|
    requires forall k :: 0 <= k < |es| ==> placed[k] == Placed(es[k], Project(view, display, es[k].transform.Bounds()))
    ensures placed == Placements(es, view, display)
  {
    if es != [] {
      PlacementsCharacterized(es[..|es| - 1], placed[..|placed| - 1], view, display);
    }
  }

  /** Each entity is placed at its projection. */
  lemma {:induction false} PlacementsProject(es: seq<Entity>, view: Rect, display: DisplayMode)
    requires !IsEmpty(view) || es == []
    ensures forall k :: 0 <= k < |es| ==>
              Placements(es, view, display)[k] == Placed(es[k], Project(view, display, es[k].transform.Bounds()))
  {
    if es != [] {
      var init := es[..|es| - 1];
      PlacementsProject(init, view, display);
      assert forall k :: 0 <= k < |init| ==> es[k] == init[k];
    }
  }

  /** Drawing one more entity appends its calls. */
  lemma SceneCallsSnoc(placed: seq<Placed>, p: Placed, debugging: bool)
    ensures SceneCalls(placed + [p], debugging) == SceneCalls(placed, debugging) + EntityCalls(p, debugging)
  {
    assert (placed + [p])[..|placed|] == placed;
  }

  /** The debug overlay: an oval around (-view.x, -view.y) and five text
      lines.  The oval's position is not scaled to the display: it is centred
      on the projected origin at scale one and while the view's corner is at
      the origin, and otherwise need not be (see OriginMarkerIgnoresZoom). */
  function Overlay(view: Rect, dt: real, total: int, rendered: int): seq<DrawCall> {
    [ DrawOval(Wrap32(IntCast(-view.x) - 5), Wrap32(IntCast(-view.y) - 5), 10, 10),
      DrawText(FramesPerSecond(dt), 2, 10),
      DrawText(TotalEntities(total), 2, 25),
      DrawText(RenderedEntities(rendered), 2, 40),
      DrawText(CameraPosition(view.x, view.y), 2, 55),
      DrawText(CameraSize(view.width, view.height), 2, 70) ]
  }

  /** Everything one render call draws when a graphics context exists. */
  function FrameCalls(placed: seq<Placed>, total: int, view: Rect, debugging: bool, dt: real): seq<DrawCall> {
    SceneCalls(placed, debugging)
      + (if debugging then Overlay(view, dt, total, |placed|) else [])
      + [Repaint]
  }

  /** The entities whose images a trace draws, in drawing order. */
  function ImagesOf(trace: seq<DrawCall>): seq<Entity> {
    if trace == [] then []
    else
      var last := trace[|trace| - 1];
      ImagesOf(trace[..|trace| - 1]) + if last.DrawImage? then [last.entity] else []
  }

  lemma {:induction false} ImagesOfAppend(a: seq<DrawCall>, b: seq<DrawCall>)
    ensures ImagesOf(a + b) == ImagesOf(a) + ImagesOf(b)
  {
    if b != [] {
      var b' := b[..|b| - 1];
      assert (a + b)[..|a + b| - 1] == a + b';
      ImagesOfAppend(a, b');
    } else {
      assert a + b == a;
    }
  }

  lemma ImagesOfSingle(c: DrawCall)
    ensures ImagesOf([c]) == if c.DrawImage? then [c.entity] else []
  {
    assert [c][..0] == [];
  }

  /** A trace without image calls draws no entity. */
  lemma {:induction false} ImagesOfNone(t: seq<DrawCall>)
    requires forall k :: 0 <= k < |t| ==> !t[k].DrawImage?
    ensures ImagesOf(t) == []
  {
    if t != [] {
      ImagesOfNone(t[..|t| - 1]);
    }
  }

  /** Drawing one entity draws its image once, then at most its label. */
  lemma EntityImages(p: Placed, debugging: bool)
    ensures ImagesOf(EntityCalls(p, debugging)) == [p.entity]
  {
    var calls := EntityCalls(p, debugging);
    ImagesOfSingle(calls[0]);
    if debugging {
      assert calls == [calls[0]] + [calls[1]];
      ImagesOfAppend([calls[0]], [calls[1]]);
      ImagesOfSingle(calls[1]);
    } else {
      assert calls == [calls[0]];
    }
  }

  /** The entities of a sequence of placements, in order. */
  function Drawn(placed: seq<Placed>): (r: seq<Entity>)
    ensures |r| == |placed| && forall k :: 0 <= k < |r| ==> r[k] == placed[k].entity
  {
    if placed == [] then [] else Drawn(placed[..|placed| - 1]) + [placed[|placed| - 1].entity]
  }

  /** Drawing the scene draws the image of each placed entity exactly once,
      in order, and nothing else but (when debugging) their labels. */
  lemma {:induction false} SceneImages(placed: seq<Placed>, debugging: bool)
    ensures ImagesOf(SceneCalls(placed, debugging)) == Drawn(placed)
    ensures forall k :: 0 <= k < |SceneCalls(placed, debugging)| ==>
              var c := SceneCalls(placed, debugging)[k];
              c.DrawImage? || (debugging && c.DrawLabel?)
  {
    if placed != [] {
      var init, last := placed[..|placed| - 1], placed[|placed| - 1];
      SceneImages(init, debugging);
      ImagesOfAppend(SceneCalls(init, debugging), EntityCalls(last, debugging));
      EntityImages(last, debugging);
    }
  }

  /** A frame draws exactly the placed entities, in order, each once. */
  lemma FrameImages(placed: seq<Placed>, total: int, view: Rect, debugging: bool, dt: real)
    ensures ImagesOf(FrameCalls(placed, total, view, debugging, dt)) == Drawn(placed)
  {
    var scene := SceneCalls(placed, debugging);
    var overlay := if debugging then Overlay(view, dt, total, |placed|) else [];
    SceneImages(placed, debugging);
    ImagesOfAppend(scene, overlay);
    ImagesOfAppend(scene + overlay, [Repaint]);
    ImagesOfSingle(Repaint);
    ImagesOfNone(overlay);
  }

  /** A trace ends with its only repaint request. */
  predicate RepaintsOnceAtEnd(trace: seq<DrawCall>) {
    && |trace| > 0 && trace[|trace| - 1].Repaint?
    && forall k :: 0 <= k < |trace| - 1 ==> !trace[k].Repaint?
  }

  /** A trace draws nothing but images and repaint requests. */
  predicate OnlyImages(trace: seq<DrawCall>) {
    forall k :: 0 <= k < |trace| ==> trace[k].DrawImage? || trace[k].Repaint?
  }

  /** A frame ends with its only repaint request, and without debugging it
      draws nothing but images before it. */
  lemma FrameShape(placed: seq<Placed>, total: int, view: Rect, debugging: bool, dt: real)
    ensures RepaintsOnceAtEnd(FrameCalls(placed, total, view, debugging, dt))
    ensures !debugging ==> OnlyImages(FrameCalls(placed, total, view, debugging, dt))
  {
    var scene := SceneCalls(placed, debugging);
    var overlay := if debugging then Overlay(view, dt, total, |placed|) else [];
    SceneImages(placed, debugging);
    var trace := scene + overlay + [Repaint];
    assert forall k :: 0 <= k < |scene| ==> trace[k] == scene[k];
    assert forall k :: |scene| <= k < |trace| - 1 ==> trace[k] == overlay[k - |scene|];
  }

  /** Placing entities and reading them back gives the entities. */
  lemma PlacementsDrawn(es: seq<Entity>, view: Rect, display: DisplayMode)
    requires !IsEmpty(view) || es == []
    ensures Drawn(Placements(es, view, display)) == es
  {
  }

  /** The frame drawn for a sequence of entities draws exactly those
      entities' images, in order. */
  lemma FrameDrawsVisible(es: seq<Entity>, total: int, view: Rect, display: DisplayMode, debugging: bool, dt: real)
    requires !IsEmpty(view) || es == []
    ensures ImagesOf(FrameCalls(Placements(es, view, display), total, view, debugging, dt)) == es
  {
    FrameImages(Placements(es, view, display), total, view, debugging, dt);
    PlacementsDrawn(es, view, display);
  }

  /** At a one-to-one scale the debug oval is centred on the projection of the
      world origin. */
  lemma OriginMarkerAtUnitScale(view: Rect, display: DisplayMode)
    requires !IsEmpty(view)
    requires display.width as real == view.width && display.height as real == view.height
    requires IntCast(-view.x) >= INT_MIN + 5 && IntCast(-view.y) >= INT_MIN + 5
    ensures var oval := Overlay(view, 0.0, 0, 0)[0];
            var origin := Project(view, display, Rect(0.0, 0.0, 0.0, 0.0));
            oval.x + 5 == origin.x && oval.y + 5 == origin.y
  {
    ScaleFactorUnit(display.width, view.width);
    ScaleFactorUnit(display.height, view.height);
  }

  /** At any zoom the oval is centred on the projected world origin while
      the view's corner is at the world origin, as it is for a camera made
      by the two-argument constructor and only resized since. */
  lemma OriginMarkerAtViewOrigin(view: Rect, display: DisplayMode, dt: real, total: int, rendered: int)
    requires !IsEmpty(view) && view.x == 0.0 && view.y == 0.0
    ensures var oval := Overlay(view, dt, total, rendered)[0];
            var origin := Project(view, display, Rect(0.0, 0.0, 0.0, 0.0));
            oval.x + 5 == origin.x && oval.y + 5 == origin.y
  {
    IntCastOfInt(0);
    ToPixelZero(ScaleFactor(display.width, view.width));
    ToPixelZero(ScaleFactor(display.height, view.height));
  }

  /** Otherwise the oval need not be centred on the projected origin: for
      example a view at (10, 0) of size 200 x 100 on a 400 x 200 display
      projects the origin to x = -20, while the oval is centred on x = -10. */
  lemma OriginMarkerIgnoresZoom()
    ensures var view := Rect(10.0, 0.0, 200.0, 100.0);
            Project(view, DisplayMode(400, 200), Rect(0.0, 0.0, 0.0, 0.0)).x == -20
            && Overlay(view, 0.0, 0, 0)[0].x + 5 == -10
  {
  }

  class Camera {
    /** The view rectangle in world coordinates; getTransform hands out this
        very object, so moving or resizing it moves the camera. */
    const view: Transform
    /** The entity list of the world being watched. */
    const registry: EntityList
    var debugging: bool

    /** The camera owns its view transform. */
    ghost predicate Valid()
      reads view
    {
      view.owner == this
    }

    /** The six-argument constructor: the view is the given int rectangle,
        debugging is off. */
    constructor (registry: EntityList, initX: Int32, initY: Int32, initW: Int32, initH: Int32)
      ensures Valid() && fresh(view)
      ensures view.Bounds() == Rect(initX as real, initY as real, initW as real, initH as real)
      ensures this.registry == registry && !debugging
    {
      this.registry := registry;
      view := new Transform(initX as real, initY as real, initW, initH);
      debugging := false;
      new;
      view.owner := this;
    }

    /** The two-argument constructor: the view matches the window's display
        mode, a one-to-one map from logical to physical space. */
    constructor FullView(registry: EntityList, display: DisplayMode)
      ensures Valid() && fresh(view)
      ensures view.Bounds() == Rect(0.0, 0.0, display.width as real, display.height as real)
      ensures this.registry == registry && !debugging
    {
      this.registry := registry;
      view := new Transform(0.0, 0.0, display.width, display.height);
      debugging := false;
      new;
      view.owner := this;
    }

    method SetDebugVisuals(debugging: bool)
      modifies this`debugging
      ensures this.debugging == debugging
    {
      this.debugging := debugging;
    }

    /** render(dT).  graphicsAvailable says whether the window has an
        offscreen graphics context; display is its current display mode.
        Without a context nothing is drawn and no repaint is requested. */
    method Render(dt: real, display: DisplayMode, graphicsAvailable: bool) returns (trace: seq<DrawCall>)
      ensures !graphicsAvailable ==> trace == []
      ensures graphicsAvailable ==>
                var visible := Visible(registry.ents, view.Bounds());
                && (!IsEmpty(view.Bounds()) || visible == [])
                && trace == FrameCalls(Placements(visible, view.Bounds(), display), |registry.ents|,
                                       view.Bounds(), debugging, dt)
      ensures ImagesOf(trace) == if graphicsAvailable then Visible(registry.ents, view.Bounds()) else []
      ensures graphicsAvailable ==> RepaintsOnceAtEnd(trace)
      ensures !debugging ==> OnlyImages(trace)
    {
      if !graphicsAvailable {
        return [];
      }
      var region := view.Bounds();
      var visible := registry.GetIntersectingEntities(region);
      assert !IsEmpty(region) || visible == [] by {
        if visible != [] {
          assert Intersects(region, visible[0].transform.Bounds());
        }
      }
      trace := DrawEntities(visible, region, display);
      assert view.Bounds() == region;
      assert Visible(registry.ents, region) == visible;
      ghost var placed := Placements(visible, region, display);
      if debugging {
        trace := trace + Overlay(region, dt, |registry.ents|, |visible|);
      }
      trace := trace + [Repaint];
      assert trace == FrameCalls(placed, |registry.ents|, region, debugging, dt);
      FrameDrawsVisible(visible, |registry.ents|, region, display, debugging, dt);
      assert ImagesOf(trace) == visible;
      FrameShape(placed, |registry.ents|, region, debugging, dt);
    }

    /** The loop of render over the visible entities: each one's image at
        its projection, then (when debugging) its label. */
    method DrawEntities(visible: seq<Entity>, region: Rect, display: DisplayMode) returns (trace: seq<DrawCall>)
      requires !IsEmpty(region) || visible == []
      ensures trace == SceneCalls(Placements(visible, region, display), debugging)
    {
      trace := [];
      ghost var placed: seq<Placed> := [];
      for i := 0 to |visible|
        invariant |placed| == i
        invariant forall k :: 0 <= k < i ==> placed[k] == Placed(visible[k], Project(region, display, visible[k].transform.Bounds()))
        invariant trace == SceneCalls(placed, debugging)
      {
        var e := visible[i];
        var p := Project(region, display, e.transform.Bounds());
        SceneCallsSnoc(placed, Placed(e, p), debugging);
        placed := placed + [Placed(e, p)];
        var calls := [DrawImage(e, p)];
        if debugging {
          calls := calls + [DrawLabel(e, p.x, Wrap32(p.y + 10))];
        }
        trace := trace + calls;
      }
      PlacementsCharacterized(visible, placed, region, display);
    }
  }
}
