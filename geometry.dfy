/** Axis-aligned rectangles: the value view of a rectangle, the intersection
    test of java.awt.geom.Rectangle2D, and the mutable Transform
    (src/gj/util/Transform.java) that entities and cameras own. */
module Geometry {

  /** A snapshot of a rectangle's four double fields, taken over the reals. */
  datatype Rect = Rect(x: real, y: real, width: real, height: real)

  /** Rectangle2D.isEmpty: a rectangle with no positive area. */
  predicate IsEmpty(r: Rect) {
    r.width <= 0.0 || r.height <= 0.0
  }

  /** Rectangle2D.intersects(Rectangle2D) as the JDK documents it: both
      rectangles are non-empty and their interiors overlap.  Edges that only
      touch do not intersect.  This is library code, stated here from its
      documented contract rather than taken from the repository. */
  predicate Intersects(a: Rect, b: Rect) {
    && !IsEmpty(a) && !IsEmpty(b)
    && b.x + b.width > a.x && b.y + b.height > a.y
    && b.x < a.x + a.width && b.y < a.y + a.height
  }

  /** The rectangle moved to (newX, newY), size kept. */
  function Positioned(r: Rect, newX: real, newY: real): Rect {
    Rect(newX, newY, r.width, r.height)
  }

  /** The rectangle moved by (dx, dy), size kept. */
  function Translated(r: Rect, dx: real, dy: real): Rect {
    Positioned(r, r.x + dx, r.y + dy)
  }

  /** The rectangle resized to newWidth x newHeight, position kept. */
  function Resized(r: Rect, newWidth: real, newHeight: real): Rect {
    Rect(r.x, r.y, newWidth, newHeight)
  }

  /** Both dimensions multiplied by factor, position kept. */
  function Scaled(r: Rect, factor: real): Rect {
    Resized(r, r.width * factor, r.height * factor)
  }

  lemma IntersectsSymmetric(a: Rect, b: Rect)
    ensures Intersects(a, b) <==> Intersects(b, a)
  {
  }

  /** Moving both rectangles by the same offset never changes whether they
      intersect: panning a camera together with what it looks at changes
      nothing about culling. */
  lemma IntersectsTranslationInvariant(a: Rect, b: Rect, dx: real, dy: real)
    ensures Intersects(Translated(a, dx, dy), Translated(b, dx, dy)) <==> Intersects(a, b)
  {
  }

  /** The length of the common part of the intervals [lo1, lo1 + len1) and
      [lo2, lo2 + len2): the lower of the two ends minus the higher of the
      two starts (zero or negative when they do not overlap). */
  function Overlap(lo1: real, len1: real, lo2: real, len2: real): real {
    (if lo1 + len1 < lo2 + len2 then lo1 + len1 else lo2 + len2) - (if lo1 < lo2 then lo2 else lo1)
  }

  /** A rectangle wholly to one side of another does not intersect it, and
      two non-empty rectangles intersect exactly when they overlap by a
      positive amount in both axes. */
  lemma IntersectsOutsideAndOverlap(a: Rect, b: Rect)
    requires !IsEmpty(a) && !IsEmpty(b)
    ensures (|| b.x + b.width <= a.x || a.x + a.width <= b.x
             || b.y + b.height <= a.y || a.y + a.height <= b.y) ==> !Intersects(a, b)
    ensures Intersects(a, b) <==> Overlap(a.x, a.width, b.x, b.width) > 0.0 && Overlap(a.y, a.height, b.y, b.height) > 0.0
  {
  }

  lemma TranslateInverse(r: Rect, dx: real, dy: real)
    ensures Translated(Translated(r, dx, dy), -dx, -dy) == r
  {
  }

  lemma TranslateCompose(r: Rect, dx1: real, dy1: real, dx2: real, dy2: real)
    ensures Translated(Translated(r, dx1, dy1), dx2, dy2) == Translated(r, dx1 + dx2, dy1 + dy2)
  {
  }

  /** Scaling keeps the position, multiplies the size, and nothing rejects a
      factor that makes the size zero or negative. */
  lemma ScaleProperties(r: Rect, f: real, g: real)
    ensures Scaled(r, f).x == r.x && Scaled(r, f).y == r.y
    ensures Scaled(Scaled(r, f), g) == Scaled(r, f * g)
    ensures r.width > 0.0 && r.height > 0.0 && f < 0.0 ==> IsEmpty(Scaled(r, f))
  {
  }

  /** src/gj/util/Transform.java: a Rectangle2D.Double whose position and size
      change in place.  Position setters may write only x and y, size setters
      only width and height (the frame), and each says the exact new value of
      all four fields (the ensures), so a setter of one coordinate leaves the
      other three as they were.  The ghost
      field owner records the Entity or Camera that created and owns it. */
  class Transform {
    var x: real
    var y: real
    var width: real
    var height: real
    ghost var owner: object?

    /** The four fields as one value. */
    function Bounds(): Rect
      reads this
    {
      Rect(x, y, width, height)
    }

    /** The int width and height become reals. */
    constructor (initX: real, initY: real, initW: int, initH: int)
      ensures Bounds() == Rect(initX, initY, initW as real, initH as real)
      ensures owner == null
    {
      x, y := initX, initY;
      width, height := initW as real, initH as real;
      owner := null;
    }

    method SetX(newX: real)
      modifies this`x, this`y
      ensures Bounds() == Positioned(old(Bounds()), newX, old(y))
    {
      SetPosition(newX, y);
    }

    method SetY(newY: real)
      modifies this`x, this`y
      ensures Bounds() == Positioned(old(Bounds()), old(x), newY)
    {
      SetPosition(x, newY);
    }

    method SetPosition(newX: real, newY: real)
      modifies this`x, this`y
      ensures Bounds() == Positioned(old(Bounds()), newX, newY)
    {
      x, y := newX, newY;
    }

    method Translate(dx: real, dy: real)
      modifies this`x, this`y
      ensures Bounds() == Translated(old(Bounds()), dx, dy)
    {
      SetPosition(x + dx, y + dy);
    }

    method SetWidth(newWidth: real)
      modifies this`width, this`height
      ensures Bounds() == Resized(old(Bounds()), newWidth, old(height))
    {
      SetSize(newWidth, height);
    }

    method SetHeight(newHeight: real)
      modifies this`width, this`height
      ensures Bounds() == Resized(old(Bounds()), old(width), newHeight)
    {
      SetSize(width, newHeight);
    }

    method SetSize(newWidth: real, newHeight: real)
      modifies this`width, this`height
      ensures Bounds() == Resized(old(Bounds()), newWidth, newHeight)
    {
      width, height := newWidth, newHeight;
    }

    method Scale(factor: real)
      modifies this`width, this`height
      ensures Bounds() == Scaled(old(Bounds()), factor)
    {
      SetSize(width * factor, height * factor);
    }
  }

  /** Translating by (dx, dy) and then by (-dx, -dy) puts a Transform back
      where it was, and its size is never touched. */
  method TranslateRoundTrip(t: Transform, dx: real, dy: real)
    modifies t`x, t`y
    ensures t.Bounds() == old(t.Bounds())
  {
    t.Translate(dx, dy);
    t.Translate(-dx, -dy);
    TranslateInverse(old(t.Bounds()), dx, dy);
  }
}
