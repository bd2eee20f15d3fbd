/** The roulette's spin engine: the busy flag, the strip's scroll offset and
    the host callbacks that drive one spin. `HandleSpin` is the spin button's
    handler; `Tick` is one `requestAnimationFrame` callback of the animation;
    `FireTimeout` is the settle-delay `setTimeout` callback. The host calls a
    callback only while it is pending. */
module SpinEngine {
  import opened Wrappers
  import opened Prizes
  import opened SpinMath

  /** Where a spin stands, read off the busy flag and the pending callbacks. */
  datatype Phase = Idle | Animating | Settling | Stuck

  /** `if (!startTime)`: the start timestamp is (re)taken while it is null or 0. */
  predicate NeedsStart(startTime: Option<real>)
  {
    startTime.None? || startTime.value == 0.0
  }

  class Roulette {
    /** The prize catalog, read-only for the engine's lifetime. */
    const prizes: seq<Prize>
    /** The `spinning` state: true from a spin's start until its settle timeout fires. */
    var spinning: bool
    /** The scroll container's `scrollLeft`. */
    var scrollLeft: real
    /** The animation's `startTime` closure variable (null until the first frame). */
    var startTime: Option<real>
    /** One `animate` frame callback is scheduled. */
    var framePending: bool
    /** One settle `setTimeout` callback is scheduled. */
    var timeoutPending: bool
    /** Delay, in milliseconds, that the last scheduled timeout asked for. */
    var timeoutDelay: nat
    /** The spin's `randomIndex`, captured by the animation. */
    var chosenIndex: nat
    /** The spin's `targetPosition`, captured by the animation. */
    var target: real
    /** Viewport width read when the current spin started. */
    ghost var viewport: real

    /** The engine's invariant. */
    ghost predicate Valid()
      reads this
    {
      // at most one callback is ever pending
      && !(framePending && timeoutPending)
      // nothing is pending unless a spin is in progress
      && (!spinning ==> !framePending && !timeoutPending)
      // a live session animates towards the target of its drawn index
      && ((framePending || timeoutPending) ==>
            && (|prizes| > 0 ==> chosenIndex < |prizes|)
            && target == TargetPosition(|prizes|, chosenIndex, viewport))
      // before the first frame has set the start time, the strip sits at 0
      && (framePending && NeedsStart(startTime) ==> scrollLeft == 0.0)
      // while settling, the strip rests exactly on the target
      && (timeoutPending ==> scrollLeft == target && timeoutDelay == SettleDelay)
    }

    ghost function CurrentPhase(): Phase
      reads this
    {
      if !spinning then Idle
      else if framePending then Animating
      else if timeoutPending then Settling
      else Stuck
    }

    constructor (prizes: seq<Prize>)
      ensures Valid() && CurrentPhase() == Idle
      ensures this.prizes == prizes && scrollLeft == 0.0 && startTime == None
    {
      this.prizes := prizes;
      spinning := false;
      scrollLeft := 0.0;
      startTime := None;
      framePending := false;
      timeoutPending := false;
      timeoutDelay := 0;
      chosenIndex := 0;
      target := 0.0;
      viewport := 0.0;
    }

    /** The spin button's handler. `containerPresent` says whether the scroll
        container is mounted, `r` is the `Math.random()` sample and `width`
        the viewport width at this moment. */
    method HandleSpin(containerPresent: bool, r: real, width: real)
      requires Valid()
      requires 0.0 <= r < 1.0
      modifies this
      ensures Valid()
      // a spin in progress blocks a new one: nothing changes at all
      ensures old(spinning) ==>
        && spinning && scrollLeft == old(scrollLeft) && startTime == old(startTime)
        && framePending == old(framePending) && timeoutPending == old(timeoutPending)
        && timeoutDelay == old(timeoutDelay) && chosenIndex == old(chosenIndex)
        && target == old(target) && viewport == old(viewport)
      // the busy flag is raised before the container is looked at, so a missing
      // container leaves the engine busy with nothing scheduled
      ensures !old(spinning) && !containerPresent ==>
        && spinning && !framePending && !timeoutPending && CurrentPhase() == Stuck
        && scrollLeft == old(scrollLeft) && startTime == old(startTime)
        && timeoutDelay == old(timeoutDelay) && chosenIndex == old(chosenIndex)
        && target == old(target) && viewport == old(viewport)
      // a started spin draws an index, fixes its target, resets the strip to 0
      // and schedules exactly one frame
      ensures !old(spinning) && containerPresent ==>
        && spinning && framePending && !timeoutPending && CurrentPhase() == Animating
        && chosenIndex == RandomIndex(r, |prizes|)
        && target == TargetPosition(|prizes|, chosenIndex, width)
        && viewport == width
        && scrollLeft == 0.0 && startTime == None
        && timeoutDelay == old(timeoutDelay)
    {
      if spinning {
        return;
      }
      spinning := true;
      if !containerPresent {
        return;
      }
      chosenIndex := RandomIndex(r, |prizes|);
      target := TargetPosition(|prizes|, chosenIndex, width);
      viewport := width;
      scrollLeft := 0.0;
      startTime := None;
      framePending := true;
    }

    /** One frame of the animation, called by the host with the frame's
        timestamp `currentTime`. */
    method Tick(currentTime: real)
      requires Valid() && framePending
      modifies this
      ensures Valid()
      ensures startTime == Some(if NeedsStart(old(startTime)) then currentTime else old(startTime).value)
      // the first frame takes its own timestamp as the start, so it leaves the strip at 0
      ensures NeedsStart(old(startTime)) ==> scrollLeft == 0.0
      // the strip is at the eased fraction of the target for the time elapsed since the first frame
      ensures scrollLeft == ScrollAt(target, currentTime - startTime.value)
      // another frame follows while progress is below 1; otherwise exactly one
      // settle timeout of 500 ms is scheduled and the strip rests on the target
      ensures framePending == (Progress(currentTime - startTime.value) < 1.0)
      ensures timeoutPending == !framePending
      ensures timeoutPending ==> timeoutDelay == SettleDelay && scrollLeft == target
      ensures framePending ==> timeoutDelay == old(timeoutDelay)
      ensures spinning == old(spinning) && spinning
      ensures chosenIndex == old(chosenIndex) && target == old(target) && viewport == old(viewport)
    {
      if NeedsStart(startTime) {
        startTime := Some(currentTime);
      }
      var elapsed := currentTime - startTime.value;
      var progress := Progress(elapsed);
      var eased := EaseOutQuart(progress);
      scrollLeft := target * eased;
      if NeedsStart(old(startTime)) || NeedsStart(startTime) {
        ScrollAtStart(target);
      }
      // below full progress the frame reschedules itself and framePending stays set;
      // at full progress the settle timeout replaces it
      if progress >= 1.0 {
        ScrollAtEnd(target, elapsed);
        framePending := false;
        timeoutPending := true;
        timeoutDelay := SettleDelay;
      }
    }

    /** The settle timeout: the only place the busy flag is cleared. */
    method FireTimeout()
      requires Valid() && timeoutPending
      modifies this
      ensures Valid() && CurrentPhase() == Idle
      ensures !spinning && !timeoutPending && !framePending
      ensures scrollLeft == old(scrollLeft) && startTime == old(startTime)
      ensures timeoutDelay == old(timeoutDelay) && chosenIndex == old(chosenIndex)
      ensures target == old(target) && viewport == old(viewport)
    {
      spinning := false;
      timeoutPending := false;
    }
  }
}
