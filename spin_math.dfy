/** The pure arithmetic of one spin: drawing the prize index, the scroll
    offset that brings the drawn prize under the pointer, the animation's
    progress clock and its ease-out-quartic curve. Pixel and millisecond
    quantities are exact reals. */
module SpinMath {
  import Prizes

  /** Rendered pitch of one strip cell, in pixels. */
  const ItemWidth: int := 176
  /** Length of the scroll animation, in milliseconds. */
  const Duration: real := 4000.0
  /** Delay between the end of the animation and clearing the busy flag, in milliseconds. */
  const SettleDelay: nat := 500

  // ---------------------------------------------------------------------
  // Index draw: Math.floor(Math.random() * prizes.length)
  // ---------------------------------------------------------------------

  /** The index drawn from a random sample `r` in [0, 1) for a catalog of `n`
      prizes: the floor of `r * n`. An empty catalog draws index 0. */
  function RandomIndex(r: real, n: nat): (k: nat)
    requires 0.0 <= r < 1.0
    ensures k as real <= r * n as real < k as real + 1.0
    ensures n > 0 ==> k < n
    ensures n == 0 ==> k == 0
  {
    assert 0.0 <= r * n as real;
    assert r * n as real <= n as real;
    (r * n as real).Floor
  }

  /** Every index of a non-empty catalog is drawn by some sample: index k by k / n. */
  lemma RandomIndexReaches(n: nat, k: nat)
    requires k < n
    ensures 0.0 <= k as real / n as real < 1.0
    ensures RandomIndex(k as real / n as real, n) == k
  {
    var r := k as real / n as real;
    assert r * n as real == k as real;
  }

  // ---------------------------------------------------------------------
  // Target offset
  // ---------------------------------------------------------------------

  /** Offset that puts a cell's centre, rather than its left edge, under the
      pointer in the middle of a viewport of the given width. */
  function CenterOffset(viewport: real): real
  {
    viewport / 2.0 - ItemWidth as real / 2.0
  }

  /** Scroll offset of the second copy of the catalog in the strip. */
  function StartPosition(n: nat): int
  {
    n * ItemWidth
  }

  /** The scroll offset a spin animates towards, for `n` prizes, drawn index
      `k` and the viewport width read when the spin starts. */
  function TargetPosition(n: nat, k: int, viewport: real): real
  {
    (StartPosition(n) + (n + k) * ItemWidth) as real - CenterOffset(viewport)
  }

  /** 8 prizes, an 800-pixel viewport and index 3 give target 3032. */
  lemma TargetPositionExample()
    ensures CenterOffset(800.0) == 312.0
    ensures StartPosition(8) == 1408
    ensures TargetPosition(8, 3, 800.0) == 3032.0
  {
  }

  /** Consecutive indices land exactly one cell pitch apart. */
  lemma TargetPositionStep(n: nat, k: int, viewport: real)
    ensures TargetPosition(n, k + 1, viewport) == TargetPosition(n, k, viewport) + ItemWidth as real
  {
  }

  /** The target is strictly increasing in the drawn index; indices `d` apart
      land `d` cell pitches apart. */
  lemma {:induction false} TargetPositionIncreasing(n: nat, j: int, k: int, viewport: real)
    requires j < k
    decreases k - j
    ensures TargetPosition(n, k, viewport) == TargetPosition(n, j, viewport) + ((k - j) * ItemWidth) as real
    ensures TargetPosition(n, j, viewport) < TargetPosition(n, k, viewport)
  {
    TargetPositionStep(n, k - 1, viewport);
    if j < k - 1 {
      TargetPositionIncreasing(n, j, k - 1, viewport);
    }
  }

  /** Measured in whole cell pitches from the strip's origin, without its CSS
      padding, the target is
      the offset of cell `2n + k`, a cell of the last copy of the catalog,
      and that cell shows the drawn prize. */
  lemma TargetShowsDrawnPrize(prizes: seq<Prizes.Prize>, k: int, viewport: real)
    requires 0 <= k < |prizes|
    ensures var n := |prizes|; var cell := 2 * n + k;
      && 2 * n <= cell < |Prizes.Strip(prizes)|
      && TargetPosition(n, k, viewport) + CenterOffset(viewport) == (cell * ItemWidth) as real
      && Prizes.Strip(prizes)[cell] == prizes[k]
  {
    var n := |prizes|;
    Prizes.StripAt(prizes, 2 * n + k);
    Prizes.ModInCopy(2 * n + k, n, 2);
  }

  // ---------------------------------------------------------------------
  // Easing: 1 - Math.pow(1 - t, 4)
  // ---------------------------------------------------------------------

  /** Math.pow for a natural exponent. */
  function Pow(x: real, n: nat): real
  {
    if n == 0 then 1.0 else x * Pow(x, n - 1)
  }

  /** The ease-out-quartic curve of the animation. */
  function EaseOutQuart(t: real): real
  {
    1.0 - Pow(1.0 - t, 4)
  }

  lemma EaseOutQuartEndpoints()
    ensures EaseOutQuart(0.0) == 0.0
    ensures EaseOutQuart(1.0) == 1.0
  {
  }

  lemma {:induction false} PowOne(n: nat)
    ensures Pow(1.0, n) == 1.0
  {
    if n > 0 {
      PowOne(n - 1);
    }
  }

  lemma ScaleMonotone(c: real, a: real, b: real)
    requires 0.0 <= c && a <= b
    ensures c * a <= c * b
  {
    assert c * b - c * a == c * (b - a);
  }

  lemma ProductMonotone(a: real, x: real, b: real, y: real)
    requires 0.0 <= a <= b && 0.0 <= x <= y
    ensures 0.0 <= a * x <= b * y
  {
    ScaleMonotone(a, 0.0, x);
    ScaleMonotone(a, x, y);
    ScaleMonotone(y, a, b);
  }

  /** Powers of non-negative reals are non-negative and grow with the base. */
  lemma {:induction false} PowMonotone(a: real, b: real, n: nat)
    requires 0.0 <= a <= b
    ensures 0.0 <= Pow(a, n) <= Pow(b, n)
  {
    if n > 0 {
      PowMonotone(a, b, n - 1);
      ProductMonotone(a, Pow(a, n - 1), b, Pow(b, n - 1));
    }
  }

  /** On [0, 1] the curve stays within [0, 1]. */
  lemma EaseOutQuartBounds(t: real)
    requires 0.0 <= t <= 1.0
    ensures 0.0 <= EaseOutQuart(t) <= 1.0
  {
    PowMonotone(1.0 - t, 1.0, 4);
    PowOne(4);
  }

  /** The curve never decreases up to t = 1, so also not on [0, 1]. */
  lemma EaseOutQuartMonotone(s: real, t: real)
    requires s <= t <= 1.0
    ensures EaseOutQuart(s) <= EaseOutQuart(t)
  {
    PowMonotone(1.0 - t, 1.0 - s, 4);
  }

  // ---------------------------------------------------------------------
  // Progress clock and the scroll offset written by one frame
  // ---------------------------------------------------------------------

  /** Math.min(elapsed / duration, 1): the animation's progress after
      `elapsed` milliseconds, clamped at 1. */
  function Progress(elapsed: real): (p: real)
    ensures p <= 1.0
    ensures p == 1.0 <==> elapsed >= Duration
    ensures 0.0 <= elapsed ==> 0.0 <= p
  {
    var q := elapsed / Duration;
    if q < 1.0 then q else 1.0
  }

  lemma ProgressMonotone(e1: real, e2: real)
    requires e1 <= e2
    ensures Progress(e1) <= Progress(e2)
  {
  }

  /** The scroll offset a frame writes, `elapsed` milliseconds after the first frame. */
  function ScrollAt(target: real, elapsed: real): real
  {
    target * EaseOutQuart(Progress(elapsed))
  }

  /** The first frame (elapsed 0) leaves the strip at offset 0. */
  lemma ScrollAtStart(target: real)
    ensures ScrollAt(target, 0.0) == 0.0
  {
  }

  /** Once the duration has elapsed the offset is exactly the target. */
  lemma ScrollAtEnd(target: real, elapsed: real)
    requires elapsed >= Duration
    ensures ScrollAt(target, elapsed) == target
  {
  }

  lemma ScaleWithin(c: real, a: real)
    requires 0.0 <= c && 0.0 <= a <= 1.0
    ensures 0.0 <= c * a <= c
  {
    ScaleMonotone(c, a, 1.0);
  }

  /** The offset stays between 0 and the target, on whichever side of 0 the target lies. */
  lemma ScrollAtBounds(target: real, elapsed: real)
    requires 0.0 <= elapsed
    ensures 0.0 <= target ==> 0.0 <= ScrollAt(target, elapsed) <= target
    ensures target <= 0.0 ==> target <= ScrollAt(target, elapsed) <= 0.0
  {
    var p := Progress(elapsed);
    EaseOutQuartBounds(p);
    var e := EaseOutQuart(p);
    assert ScrollAt(target, elapsed) == target * e;
    if 0.0 <= target {
      ScaleWithin(target, e);
      assert target * e <= target;
    } else {
      ScaleWithin(-target, e);
      assert (-target) * e == -(target * e);
    }
  }

  /** As time advances the offset never moves away from the target: it grows
      towards a non-negative target and shrinks towards a negative one. */
  lemma ScrollAtMonotone(target: real, e1: real, e2: real)
    requires e1 <= e2
    ensures 0.0 <= target ==> ScrollAt(target, e1) <= ScrollAt(target, e2)
    ensures target <= 0.0 ==> ScrollAt(target, e2) <= ScrollAt(target, e1)
  {
    ProgressMonotone(e1, e2);
    EaseOutQuartMonotone(Progress(e1), Progress(e2));
    var a, b := EaseOutQuart(Progress(e1)), EaseOutQuart(Progress(e2));
    assert ScrollAt(target, e1) == target * a && ScrollAt(target, e2) == target * b;
    if 0.0 <= target {
      ScaleMonotone(target, a, b);
    } else {
      ScaleMonotone(-target, a, b);
      assert (-target) * a == -(target * a) && (-target) * b == -(target * b);
    }
  }
}
