/** src/gj/entities/Entity.java: a simulated object with a position and size
    (an owned Transform), an image whose size is the entity's initial size, and
    a fixed z-height that orders drawing. */
module Entities {
  import opened JavaNumerics
  import opened Geometry

  /** The only thing the engine asks of a java.awt.Image: its size in pixels. */
  datatype Image = Image(width: Int32, height: Int32)

  /** What update(dt) does.  Inert is Entity.update itself, which does
      nothing; Drift(vx, vy) is the overriding update of the demo entity in
      src/gj/MainSandbox.java, which translates its own transform by
      (vx * dt, vy * dt). */
  datatype Behaviour = Inert | Drift(vx: real, vy: real)

  /** The transform an entity holds after update(dt) when it held r before. */
  function Advanced(r: Rect, b: Behaviour, dt: real): Rect {
    match b
    case Inert => r
    case Drift(vx, vy) => Translated(r, vx * dt, vy * dt)
  }

  class Entity {
    /** Final in the source: the same Transform object for the entity's whole
        life, so changes made through it are the entity's changes. */
    const transform: Transform
    const image: Image
    /** Final in the source (its setter is commented out): re-ordering an
        entity means removing it and adding it again. */
    const zHeight: Int32
    const behaviour: Behaviour

    /** The entity owns its transform: no other entity or camera shares it. */
    ghost predicate Valid()
      reads transform
    {
      transform.owner == this
    }

    /** The four-argument constructor: the transform starts at (initX, initY)
        with the image's width and height. */
    constructor (initX: real, initY: real, img: Image, z: Int32)
      ensures Valid() && fresh(transform)
      ensures transform.Bounds() == Rect(initX, initY, img.width as real, img.height as real)
      ensures image == img && zHeight == z && behaviour == Inert
    {
      transform := new Transform(initX, initY, img.width, img.height);
      image := img;
      zHeight := z;
      behaviour := Inert;
      new;
      transform.owner := this;
    }

    /** The three-argument constructor: as above with height 0. */
    constructor AtGroundLevel(initX: real, initY: real, img: Image)
      ensures Valid() && fresh(transform)
      ensures transform.Bounds() == Rect(initX, initY, img.width as real, img.height as real)
      ensures image == img && zHeight == 0 && behaviour == Inert
    {
      transform := new Transform(initX, initY, img.width, img.height);
      image := img;
      zHeight := 0;
      behaviour := Inert;
      new;
      transform.owner := this;
    }

    /** The anonymous subclass built by the demo program: a four-argument
        Entity whose update translates it by (vx * dt, vy * dt). */
    constructor Drifting(initX: real, initY: real, img: Image, z: Int32, vx: real, vy: real)
      ensures Valid() && fresh(transform)
      ensures transform.Bounds() == Rect(initX, initY, img.width as real, img.height as real)
      ensures image == img && zHeight == z && behaviour == Drift(vx, vy)
    {
      transform := new Transform(initX, initY, img.width, img.height);
      image := img;
      zHeight := z;
      behaviour := Drift(vx, vy);
      new;
      transform.owner := this;
    }

    /** Advances the entity by dt seconds.  It touches only its own
        transform's position; the base behaviour changes nothing at all. */
    method Update(dt: real)
      modifies transform`x, transform`y
      ensures transform.Bounds() == Advanced(old(transform.Bounds()), behaviour, dt)
      ensures behaviour == Inert ==> unchanged(transform)
    {
      match behaviour
      case Inert =>
      case Drift(vx, vy) =>
        transform.Translate(vx * dt, vy * dt);
    }

    /** compareTo as written: the height difference in 32-bit int
        arithmetic.  Its sign is the order of the heights only while the
        difference fits in an int (see HeightDifferenceOverflows). */
    function CompareTo(other: Entity): (r: Int32)
      ensures INT_MIN <= zHeight - other.zHeight <= INT_MAX ==>
                && (r < 0 <==> zHeight < other.zHeight)
                && (r == 0 <==> zHeight == other.zHeight)
                && (r > 0 <==> zHeight > other.zHeight)
    {
      HeightDifference(zHeight, other.zHeight)
    }
  }

  /** a - b as a Java int: wraps around when the true difference leaves the
      int range. */
  function HeightDifference(a: Int32, b: Int32): (r: Int32)
    ensures INT_MIN <= a - b <= INT_MAX ==> r == a - b
  {
    Wrap32(a - b)
  }

  /** Heights far enough apart make the subtraction overflow: the greater
      height compares as smaller, and compareTo is no longer antisymmetric. */
  lemma HeightDifferenceOverflows()
    ensures INT_MAX > -1 && HeightDifference(INT_MAX, -1) < 0
    ensures HeightDifference(INT_MIN, 0) < 0 && HeightDifference(0, INT_MIN) < 0
  {
  }

  /** The comparison compareTo evidently intends (Integer.compare): its sign
      is the order of the heights for every pair of ints. */
  function CompareHeights(a: Int32, b: Int32): (r: int)
    ensures r < 0 <==> a < b
    ensures r == 0 <==> a == b
    ensures r > 0 <==> a > b
  {
    if a < b then -1 else if a == b then 0 else 1
  }

  /** The corrected comparison is antisymmetric and transitive, as
      Comparable requires. */
  lemma CompareHeightsIsOrder(a: Int32, b: Int32, c: Int32)
    ensures CompareHeights(a, b) < 0 <==> CompareHeights(b, a) > 0
    ensures CompareHeights(a, b) <= 0 && CompareHeights(b, c) <= 0 ==> CompareHeights(a, c) <= 0
  {
  }
}
