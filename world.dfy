/** src/gj/GameWorld.java: a world of entities simulated at a fixed tick
    rate.  The main loop's thread is not modelled; each iteration of its
    while loop is one call of RunIteration with the clock reading as a
    parameter, and the thread's life is the explicit Lifecycle below. */
module World {
  import opened JavaNumerics
  import opened Geometry
  import opened Entities
  import opened EntityLists
  import opened Graphics

  /** The main-loop thread: never started, running, running with an
      interrupt pending (stop was called), or finished. */
  datatype Lifecycle = Created | Running | Interrupted | Terminated

  /** What Thread.start does to the thread: only a new thread starts. */
  function AfterStart(l: Lifecycle): Lifecycle {
    if l == Created then Running else l
  }

  /** What Thread.interrupt does: a running loop is asked to stop.  A thread
      that is not alive is left as it is. */
  function AfterStop(l: Lifecycle): Lifecycle {
    if l == Running then Interrupted else l
  }

  /** What the check at the top of the loop does: a pending interrupt ends
      the loop. */
  function AfterLoopCheck(l: Lifecycle): Lifecycle {
    if l == Interrupted then Terminated else l
  }

  /** The calls the world's owner and its thread can make on the lifecycle. */
  datatype Op = Start | Stop | LoopCheck

  function Apply(l: Lifecycle, op: Op): Lifecycle {
    match op
    case Start => AfterStart(l)
    case Stop => AfterStop(l)
    case LoopCheck => AfterLoopCheck(l)
  }

  /** The lifecycle after a history of calls. */
  function Replay(l: Lifecycle, ops: seq<Op>): Lifecycle
    decreases ops
  {
    if ops == [] then l else Replay(Apply(l, ops[0]), ops[1..])
  }

  /** How many start calls of a history succeed. */
  function Starts(l: Lifecycle, ops: seq<Op>): nat
    decreases ops
  {
    if ops == [] then 0
    else (if ops[0] == Start && l == Created then 1 else 0) + Starts(Apply(l, ops[0]), ops[1..])
  }

  /** Once started, a world never becomes startable again, whatever is
      called on it: stopping it does not reset it. */
  lemma {:induction false} NeverCreatedAgain(l: Lifecycle, ops: seq<Op>)
    decreases ops
    requires l != Created
    ensures Replay(l, ops) != Created
    ensures Starts(l, ops) == 0
  {
    if ops != [] {
      NeverCreatedAgain(Apply(l, ops[0]), ops[1..]);
    }
  }

  /** Over any history, at most one start succeeds: the world is single-use. */
  lemma {:induction false} StartsAtMostOnce(l: Lifecycle, ops: seq<Op>)
    decreases ops
    ensures Starts(l, ops) <= 1
  {
    if ops != [] {
      if l == Created && ops[0] == Start {
        NeverCreatedAgain(Running, ops[1..]);
      } else {
        StartsAtMostOnce(Apply(l, ops[0]), ops[1..]);
      }
    }
  }

  /** A stopped world that has left its loop can never run again. */
  lemma {:induction false} TerminatedIsFinal(ops: seq<Op>)
    ensures Replay(Terminated, ops) == Terminated
  {
    if ops != [] {
      TerminatedIsFinal(ops[1..]);
    }
  }

  /** The nominal milliseconds between ticks: 1000 / tickRate in Java int
      division, which truncates (both operands are positive here). */
  function TickInterval(tickRate: int): (ms: int)
    requires tickRate > 0
    ensures 0 <= ms <= 1000
    ensures ms * tickRate <= 1000 < (ms + 1) * tickRate
  {
    1000 / tickRate
  }

  /** The loop goes on to a tick unless curTime < latestUpdate + 1000 /
      tickRate. */
  predicate TickDue(curTime: int, latestUpdate: int, tickRate: int)
    requires tickRate > 0
  {
    !(curTime < latestUpdate + TickInterval(tickRate))
  }

  /** The dt of a tick: the actual time since the previous one, in seconds. */
  function ElapsedSeconds(curTime: int, latestUpdate: int): real {
    (curTime - latestUpdate) as real / 1000.0
  }

  /** A tick reports at least the nominal interval, never a negative time,
      and exactly the elapsed milliseconds. */
  lemma TickElapsed(curTime: int, latestUpdate: int, tickRate: int)
    requires tickRate > 0 && TickDue(curTime, latestUpdate, tickRate)
    ensures ElapsedSeconds(curTime, latestUpdate) >= TickInterval(tickRate) as real / 1000.0 >= 0.0
    ensures ElapsedSeconds(curTime, latestUpdate) * 1000.0 == (curTime - latestUpdate) as real
  {
  }

  /** The latest-update time after one iteration at curTime. */
  function NextLatest(curTime: int, latestUpdate: int, tickRate: int): int
    requires tickRate > 0
  {
    if TickDue(curTime, latestUpdate, tickRate) then curTime else latestUpdate
  }

  /** The dts of the ticks that a running loop fires over the clock readings
      clock, starting from latestUpdate. */
  function Ticks(latestUpdate: int, clock: seq<int>, tickRate: int): seq<real>
    requires tickRate > 0
    decreases clock
  {
    if clock == [] then []
    else
      (if TickDue(clock[0], latestUpdate, tickRate) then [ElapsedSeconds(clock[0], latestUpdate)] else [])
        + Ticks(NextLatest(clock[0], latestUpdate, tickRate), clock[1..], tickRate)
  }

  /** The latest-update time after the loop has seen every reading of clock. */
  function LatestAfter(latestUpdate: int, clock: seq<int>, tickRate: int): int
    requires tickRate > 0
    decreases clock
  {
    if clock == [] then latestUpdate
    else LatestAfter(NextLatest(clock[0], latestUpdate, tickRate), clock[1..], tickRate)
  }

  function Sum(xs: seq<real>): real {
    if xs == [] then 0.0 else xs[0] + Sum(xs[1..])
  }

  /** Over any run of the loop, whatever the clock does, the latest-update
      time never decreases, and the dts handed to simulate and render add
      up to exactly the time between the starting latestUpdate and the last
      tick: no simulated time is lost or counted twice. */
  lemma {:induction false} TicksAccountForTime(latestUpdate: int, clock: seq<int>, tickRate: int)
    requires tickRate > 0
    decreases clock
    ensures LatestAfter(latestUpdate, clock, tickRate) >= latestUpdate
    ensures Sum(Ticks(latestUpdate, clock, tickRate))
            == ElapsedSeconds(LatestAfter(latestUpdate, clock, tickRate), latestUpdate)
  {
    if clock != [] {
      var next := NextLatest(clock[0], latestUpdate, tickRate);
      TicksAccountForTime(next, clock[1..], tickRate);
      var first := if TickDue(clock[0], latestUpdate, tickRate) then [ElapsedSeconds(clock[0], latestUpdate)] else [];
      SumAppend(first, Ticks(next, clock[1..], tickRate));
    }
  }

  lemma {:induction false} SumAppend(xs: seq<real>, ys: seq<real>)
    ensures Sum(xs + ys) == Sum(xs) + Sum(ys)
  {
    if xs != [] {
      assert (xs + ys)[1..] == xs[1..] + ys;
      SumAppend(xs[1..], ys);
    } else {
      assert xs + ys == ys;
    }
  }

  /** Every tick of a run is at least the nominal interval long. */
  lemma {:induction false} TicksAtLeastInterval(latestUpdate: int, clock: seq<int>, tickRate: int)
    requires tickRate > 0
    decreases clock
    ensures forall k :: 0 <= k < |Ticks(latestUpdate, clock, tickRate)| ==>
              Ticks(latestUpdate, clock, tickRate)[k] >= TickInterval(tickRate) as real / 1000.0
  {
    if clock != [] {
      var next := NextLatest(clock[0], latestUpdate, tickRate);
      TicksAtLeastInterval(next, clock[1..], tickRate);
      if TickDue(clock[0], latestUpdate, tickRate) {
        TickElapsed(clock[0], latestUpdate, tickRate);
      }
    }
  }

  /** What one iteration of the main loop did. */
  datatype Iteration =
    | Exited                               // the interrupt was seen: the loop ends
    | Skipped                              // not yet time for a tick: continue
    | Ticked(dt: real, frame: seq<DrawCall>)  // simulate(dt), then render(dt)

  class GameWorld {
    const ents: EntityList
    const camera: Camera
    const tickRate: Int32
    /** A Java long in the source; unbounded here. */
    var latestUpdate: int
    var lifecycle: Lifecycle

    /** The camera watches this world's list, the list keeps its invariant,
        and the camera owns its view. */
    ghost predicate Valid()
      reads this, ents, camera, camera.view, set e | e in ents.ents :: e.transform
    {
      && camera.registry == ents
      && ents.Valid()
      && camera.Valid()
    }

    /** The constructor: an empty list, a camera on the whole window, the
        clock reading now as the latest update, and a thread not yet
        started. */
    constructor (tickRate: Int32, display: DisplayMode, now: int)
      ensures Valid()
      ensures ents.ents == [] && fresh(ents) && fresh(camera)
      ensures camera.view.Bounds() == Rect(0.0, 0.0, display.width as real, display.height as real)
      ensures !camera.debugging
      ensures this.tickRate == tickRate && latestUpdate == now && lifecycle == Created
    {
      var list := new EntityList();
      ents := list;
      this.tickRate := tickRate;
      latestUpdate := now;
      camera := new Camera.FullView(list, display);
      lifecycle := Created;
    }

    /** addEntity: exactly EntityList.addEntity. */
    method AddEntity(ent: Entity) returns (added: bool)
      requires Valid() && ent.Valid()
      modifies ents
      ensures Valid()
      ensures added <==> ent !in old(ents.ents)
      ensures added ==> ents.ents == Inserted(old(ents.ents), LowerBound(old(ents.ents), ent.zHeight), ent)
      ensures !added ==> ents.ents == old(ents.ents)
    {
      added := ents.AddEntity(ent);
    }

    /** removeEntity: exactly EntityList.removeEntity. */
    method RemoveEntity(ent: Entity) returns (removed: bool)
      requires Valid()
      modifies ents
      ensures Valid()
      ensures removed <==> ent in old(ents.ents)
      ensures removed ==> ents.ents == RemovedAt(old(ents.ents), IndexOf(old(ents.ents), ent))
      ensures !removed ==> ents.ents == old(ents.ents)
      ensures ent !in ents.ents
    {
      removed := ents.RemoveEntity(ent);
    }

    /** setDebugMode: switches the camera's debug visuals. */
    method SetDebugMode(debug: bool)
      modifies camera`debugging
      ensures camera.debugging == debug
    {
      camera.SetDebugVisuals(debug);
    }

    /** start: starts the main-loop thread; a thread that was ever started
        throws IllegalThreadStateException instead (reported as false). */
    method Start() returns (started: bool)
      modifies this`lifecycle
      ensures started <==> old(lifecycle) == Created
      ensures lifecycle == AfterStart(old(lifecycle))
    {
      started := lifecycle == Created;
      if started {
        lifecycle := Running;
      }
    }

    /** stop: interrupts the main-loop thread. */
    method Stop()
      modifies this`lifecycle
      ensures lifecycle == AfterStop(old(lifecycle))
    {
      if lifecycle == Running {
        lifecycle := Interrupted;
      }
    }

    /** simulate(dt): update(dt) on every entity, once each, in list order.
        updated records the entities in the order their update was called.
        Entities own distinct transforms, so each entity's transform is
        advanced exactly once, and the camera's view is not touched. */
    method Simulate(dt: real) returns (ghost updated: seq<Entity>)
      requires Valid()
      modifies set e | e in ents.ents :: e.transform
      ensures Valid()
      ensures updated == ents.ents
      ensures forall k :: 0 <= k < |ents.ents| ==>
                ents.ents[k].transform.Bounds()
                == Advanced(old(ents.ents[k].transform.Bounds()), ents.ents[k].behaviour, dt)
    {
      var s := ents.ents;
      updated := [];
      for i := 0 to |s|
        invariant updated == s[..i]
        invariant forall e :: e in s ==> e.transform.owner == e
        invariant forall k :: 0 <= k < i ==>
                    s[k].transform.Bounds() == Advanced(old(s[k].transform.Bounds()), s[k].behaviour, dt)
        invariant forall k :: i <= k < |s| ==> s[k].transform.Bounds() == old(s[k].transform.Bounds())
      {
        var e := s[i];
        updated := updated + [e];
        e.Update(dt);
        assert forall k :: 0 <= k < |s| && k != i ==> s[k].transform != e.transform by {
          forall k | 0 <= k < |s| && k != i
            ensures s[k].transform != e.transform
          {
            assert s[k] != s[i];
          }
        }
      }
      assert s[..|s|] == s;
    }

    /** One iteration of MainLoop.run at clock reading curTime, on the
        window's current display mode and graphics context.  A pending
        interrupt ends the loop; an early reading skips the iteration;
        otherwise the tick's dt is the actual elapsed time, latestUpdate
        becomes curTime, and the world is simulated and then rendered with
        that same dt. */
    method RunIteration(curTime: int, display: DisplayMode, graphicsAvailable: bool)
      returns (outcome: Iteration, ghost updated: seq<Entity>)
      requires Valid() && tickRate > 0
      requires lifecycle == Running || lifecycle == Interrupted
      modifies this`latestUpdate, this`lifecycle, set e | e in ents.ents :: e.transform
      ensures Valid()
      ensures latestUpdate >= old(latestUpdate)
      ensures old(lifecycle) == Interrupted ==>
                outcome == Exited && lifecycle == Terminated && latestUpdate == old(latestUpdate)
      ensures old(lifecycle) == Running ==> lifecycle == Running
      ensures old(lifecycle) == Running && !TickDue(curTime, old(latestUpdate), tickRate) ==>
                outcome == Skipped && latestUpdate == old(latestUpdate)
      ensures !outcome.Ticked? ==>
                && updated == []
                && forall e :: e in ents.ents ==> e.transform.Bounds() == old(e.transform.Bounds())
      ensures old(lifecycle) == Running && TickDue(curTime, old(latestUpdate), tickRate) ==>
                && outcome.Ticked?
                && outcome.dt == ElapsedSeconds(curTime, old(latestUpdate))
                && latestUpdate == curTime
                && updated == ents.ents
                && (forall k :: 0 <= k < |ents.ents| ==>
                      ents.ents[k].transform.Bounds()
                      == Advanced(old(ents.ents[k].transform.Bounds()), ents.ents[k].behaviour, outcome.dt))
                && ImagesOf(outcome.frame)
                   == (if graphicsAvailable then Visible(ents.ents, camera.view.Bounds()) else [])
                && (graphicsAvailable ==>
                      var view := camera.view.Bounds();
                      var visible := Visible(ents.ents, view);
                      && (!IsEmpty(view) || visible == [])
                      && outcome.frame == FrameCalls(Placements(visible, view, display), |ents.ents|,
                                                     view, camera.debugging, outcome.dt))
                && (graphicsAvailable ==> RepaintsOnceAtEnd(outcome.frame))
                && (!graphicsAvailable ==> outcome.frame == [])
                && (!camera.debugging ==> OnlyImages(outcome.frame))
    {
      updated := [];
      if lifecycle == Interrupted {
        lifecycle := Terminated;
        return Exited, updated;
      }
      if curTime < latestUpdate + 1000 / tickRate {
        return Skipped, updated;
      }
      var dt := (curTime - latestUpdate) as real / 1000.0;
      latestUpdate := curTime;
      updated := Simulate(dt);
      var frame := camera.Render(dt, display, graphicsAvailable);
      outcome := Ticked(dt, frame);
    }
  }
}
