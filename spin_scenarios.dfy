/** Whole spins, driven the way the host drives the engine: the button's
    click handler, then one frame callback per rendered frame, then the
    settle timeout. */
module SpinScenarios {
  import opened Wrappers
  import opened Prizes
  import opened SpinMath
  import opened SpinEngine

  /** Two offsets, `x` written before `y`, lie between 0 and `goal` with `y`
      no further from `goal` than `x`. */
  predicate Toward(x: real, y: real, goal: real)
  {
    if 0.0 <= goal then 0.0 <= x <= y <= goal else goal <= y <= x <= 0.0
  }

  /** Offsets that stay between 0 and `goal` and never move away from it. */
  ghost predicate Approaching(trace: seq<real>, goal: real)
  {
    forall a, b :: 0 <= a <= b < |trace| ==> Toward(trace[a], trace[b], goal)
  }

  lemma ApproachingAppend(trace: seq<real>, x: real, goal: real)
    requires Approaching(trace, goal)
    requires Toward(x, x, goal)
    requires |trace| > 0 ==> Toward(trace[|trace| - 1], x, goal)
    ensures Approaching(trace + [x], goal)
  {
  }

  /** The offset written by the frame at `elapsed`, appended to the offsets
      written by earlier frames, the last of them at `before`, keeps them
      approaching the target. */
  lemma FrameApproaches(trace: seq<real>, goal: real, before: real, elapsed: real)
    requires 0.0 <= elapsed && before <= elapsed
    requires Approaching(trace, goal)
    requires |trace| > 0 ==> trace[|trace| - 1] == ScrollAt(goal, before)
    ensures Approaching(trace + [ScrollAt(goal, elapsed)], goal)
  {
    ScrollAtBounds(goal, elapsed);
    if |trace| > 0 {
      ScrollAtMonotone(goal, before, elapsed);
      assert Toward(trace[|trace| - 1], trace[|trace| - 1], goal);
    }
    ApproachingAppend(trace, ScrollAt(goal, elapsed), goal);
  }

  /** One click with the container mounted, then one frame callback at each
      of the timestamps `frames` for as long as the animation keeps
      scheduling frames, then the settle timeout. The frames are in time
      order and span at least the animation's duration. `trace` holds the
      scroll offset after each frame that ran. */
  method SpinToCompletion(r: real, width: real, frames: seq<real>)
    returns (trace: seq<real>, busyAfter: bool)
    requires 0.0 <= r < 1.0
    requires |frames| > 0 && frames[0] > 0.0
    requires forall a, b :: 0 <= a <= b < |frames| ==> frames[a] <= frames[b]
    requires frames[|frames| - 1] - frames[0] >= Duration
    ensures 1 <= |trace| <= |frames| && trace[0] == 0.0
    ensures trace[|trace| - 1] == TargetPosition(8, RandomIndex(r, 8), width)
    ensures Approaching(trace, TargetPosition(8, RandomIndex(r, 8), width))
    ensures !busyAfter
  {
    CatalogShape();
    var wheel := new Roulette(Catalog());
    wheel.HandleSpin(true, r, width);
    ghost var goal := TargetPosition(8, RandomIndex(r, 8), width);
    var i: nat := 0;
    trace := [];
    while wheel.framePending
      invariant wheel.Valid() && wheel.spinning && wheel.prizes == Catalog()
      invariant wheel.target == goal
      invariant wheel.framePending ==> i < |frames|
      invariant i == 0 ==> wheel.framePending && wheel.startTime.None?
      invariant !wheel.framePending ==> wheel.timeoutPending
      invariant i <= |frames| && |trace| == i
      invariant i > 0 ==> wheel.startTime == Some(frames[0])
      invariant i > 0 ==> trace[0] == 0.0
      invariant i > 0 ==> trace[i - 1] == ScrollAt(goal, frames[i - 1] - frames[0])
      invariant i > 0 && !wheel.framePending ==> trace[i - 1] == goal
      invariant Approaching(trace, goal)
      decreases |frames| - i
    {
      wheel.Tick(frames[i]);
      ghost var elapsed := frames[i] - frames[0];
      assert wheel.scrollLeft == ScrollAt(goal, elapsed);
      if i == 0 {
        ScrollAtStart(goal);
      }
      FrameApproaches(trace, goal, if i == 0 then 0.0 else frames[i - 1] - frames[0], elapsed);
      trace := trace + [wheel.scrollLeft];
      i := i + 1;
    }
    wheel.FireTimeout();
    busyAfter := wheel.spinning;
  }

  /** Two clicks in a row: the second click is ignored, so the spin keeps the
      target the first click drew, whatever the second click's sample and
      viewport width were. */
  method DoubleClick(r1: real, r2: real, width1: real, width2: real) returns (first: real, second: real)
    requires 0.0 <= r1 < 1.0 && 0.0 <= r2 < 1.0
    ensures first == second
    ensures first == TargetPosition(8, RandomIndex(r1, 8), width1)
  {
    CatalogShape();
    var wheel := new Roulette(Catalog());
    wheel.HandleSpin(true, r1, width1);
    first := wheel.target;
    wheel.HandleSpin(true, r2, width2);
    second := wheel.target;
  }

  /** A click while the container is not mounted raises the busy flag with
      nothing scheduled to lower it, and every later click is ignored. */
  method ClickWithoutContainer(r1: real, r2: real, width: real)
    returns (busy: bool, anyPending: bool)
    requires 0.0 <= r1 < 1.0 && 0.0 <= r2 < 1.0
    ensures busy && !anyPending
  {
    var wheel := new Roulette(Catalog());
    wheel.HandleSpin(false, r1, width);
    wheel.HandleSpin(true, r2, width);
    busy := wheel.spinning;
    anyPending := wheel.framePending || wheel.timeoutPending;
  }
}
