/**
 Finding the largest size the Game Bar host accepts.  Sizes are real numbers of
 device-independent pixels; the host answers by a predicate that does not
 change during a search.
 */
module HudGeometry {
  const MAX_ATTEMPTS := 14
  const MAX_SPAN := 16384

  datatype FitResult = FitResult(width: real, height: real, accepted: bool)

  /** The host: an accepted size becomes the current one. */
  class Host {
    const accepts: (real, real) -> bool
    var width: real
    var height: real
    var probes: nat

    constructor (accepts: (real, real) -> bool, width: real, height: real)
      ensures this.accepts == accepts && this.width == width && this.height == height && probes == 0
    {
      this.accepts, this.width, this.height, probes := accepts, width, height, 0;
    }

    method Resize(w: real, h: real) returns (ok: bool)
      modifies this
      ensures ok == accepts(w, h) && probes == old(probes) + 1
      ensures width == (if ok then w else old(width)) && height == (if ok then h else old(height))
    {
      probes, ok := probes + 1, accepts(w, h);
      if ok {
        width, height := w, h;
      }
    }

    /** A size given along one axis, the other being fixed. */
    predicate AcceptsAlong(alongWidth: bool, x: real, other: real) {
      if alongWidth then accepts(x, other) else accepts(other, x)
    }

    method ResizeAlong(alongWidth: bool, x: real, other: real) returns (ok: bool)
      modifies this
      ensures ok == AcceptsAlong(alongWidth, x, other) && probes == old(probes) + 1
    {
      if alongWidth {
        ok := Resize(x, other);
      } else {
        ok := Resize(other, x);
      }
    }
  }

  function Max(x: real, y: real): real { if x >= y then x else y }
  function Min(x: real, y: real): real { if x <= y then x else y }
  function Mid(low: real, high: real): real { ((low + high) / 2.0).Floor as real }
  predicate IsInteger(x: real) { x == x.Floor as real }

  /** How many whole pixels are left between the bounds. */
  function Gap(low: real, high: real): int { high.Floor - low.Floor }

  function Pow2(n: nat): nat { if n == 0 then 1 else 2 * Pow2(n - 1) }

  /** Whichever bound moves to the middle, the gap is halved, rounding up. */
  lemma {:induction false} MidHalves(low: real, high: real)
    requires low <= high
    ensures 2 * Gap(Mid(low, high), high) <= Gap(low, high) + 1
    ensures 2 * Gap(low, Mid(low, high)) <= Gap(low, high) + 1
    ensures IsInteger(Mid(low, high)) && Mid(low, high) >= low.Floor as real && Mid(low, high) <= high
  {
    var f, h, m := low.Floor, high.Floor, ((low + high) / 2.0).Floor;
    assert f as real <= low < f as real + 1.0 && h as real <= high < h as real + 1.0;
    assert m as real <= (low + high) / 2.0 < m as real + 1.0;
    assert 2 * m > f + h - 2 && 2 * m < f + h + 2;
    assert Mid(low, high).Floor == m;
  }

  /** With a whole upper bound the middle makes progress as long as the search goes on. */
  lemma {:induction false} MidAdvances(low: real, high: real)
    requires high - low > 1.0 && IsInteger(high)
    ensures Mid(low, high) > low
  {
    var f, h, m := low.Floor, high.Floor, ((low + high) / 2.0).Floor;
    assert h >= f + 2;
    assert 2 * m >= f + h - 1;
  }

  /** A middle that does not advance means that the bounds are less than two apart. */
  lemma {:induction false} StalledIsClose(low: real, high: real)
    requires Mid(low, high) <= low
    ensures high - low < 2.0
  {
  }

  lemma {:induction false} SmallGapIsClose(low: real, high: real)
    requires Gap(low, high) <= 1
    ensures high - low < 2.0
    ensures IsInteger(high) ==> high - low <= 1.0
  {
  }

  lemma {:induction false} FloorIs(x: real, n: int)
    requires n as real <= x < n as real + 1.0
    ensures x.Floor == n
  {
  }

  lemma {:induction false} FloorBelow(x: real, low: real, m: int, f: int)
    requires m as real <= x < m as real + 1.0 && f as real <= low < f as real + 1.0
    requires x > low + 0.5 && m as real < low
    ensures m == f
  {
  }

  /** A search that goes below its own accepted start goes to the whole number below it. */
  lemma {:induction false} StuckBelow(low: real, high: real)
    requires high - low > 1.0 && Mid(low, high) < low
    ensures Mid(low, high) == low.Floor as real && high < low.Floor as real + 2.0
  {
    var x := (low + high) / 2.0;
    FloorBelow(x, low, x.Floor, low.Floor);
    assert high == 2.0 * x - low;
  }

  lemma {:induction false} MidOfClose(f: real, high: real)
    requires IsInteger(f) && f <= high < f + 2.0
    ensures Mid(f, high) == f
  {
    FloorIs((f + high) / 2.0, f.Floor);
  }

  /** Searching between an accepted and a rejected value: what is left is an accepted value, with a
      rejected one less than a pixel or two above it. */
  method SearchUpward(host: Host, alongWidth: bool, other: real, low: real, high: real) returns (fitted: real, ghost rejected: real)
    requires low <= high && (!host.AcceptsAlong(alongWidth, high, other) || low == high)
    modifies host
    ensures host.probes <= old(host.probes) + MAX_ATTEMPTS
    ensures low <= fitted <= rejected <= high && (fitted == low || host.AcceptsAlong(alongWidth, fitted, other))
    ensures !host.AcceptsAlong(alongWidth, rejected, other) || low == high
    ensures Gap(low, high) <= MAX_SPAN ==> rejected - fitted < 2.0
    ensures Gap(low, high) <= MAX_SPAN && IsInteger(high) ==> rejected - fitted <= 1.0
  {
    fitted := low;
    var top, attempt := high, 0;
    Pow2Of14();
    while attempt < MAX_ATTEMPTS && top - fitted > 1.0
      invariant 0 <= attempt <= MAX_ATTEMPTS && host.probes <= old(host.probes) + attempt
      invariant low <= fitted <= top <= high && (IsInteger(high) ==> IsInteger(top))
      invariant fitted == low || host.AcceptsAlong(alongWidth, fitted, other)
      invariant !host.AcceptsAlong(alongWidth, top, other) || low == high
      invariant Gap(low, high) <= MAX_SPAN ==> Gap(fitted, top) <= Pow2(MAX_ATTEMPTS - attempt)
    {
      var mid := Mid(fitted, top);
      MidHalves(fitted, top);
      if mid <= fitted {
        StalledIsClose(fitted, top);
        NoStallAtInteger(fitted, top);
        break;
      }
      var ok := host.ResizeAlong(alongWidth, mid, other);
      if ok {
        fitted := mid;
      } else {
        top := mid;
      }
      attempt := attempt + 1;
    }
    rejected := top;
    if Gap(low, high) <= MAX_SPAN && attempt == MAX_ATTEMPTS {
      SmallGapIsClose(fitted, top);
    }
  }

  lemma {:induction false} NoStallAtInteger(low: real, high: real)
    requires high - low > 1.0 && Mid(low, high) <= low
    ensures !IsInteger(high)
  {
    if IsInteger(high) {
      MidAdvances(low, high);
    }
  }

  lemma {:induction false} Pow2Of14()
    ensures Pow2(14) == MAX_SPAN
  {
    assert Pow2(7) == 128;
    assert Pow2(11) == 2048;
  }

  /** The first step of a search that does not check whether the middle advances takes it below its start. */
  predicate GoesBelow(host: Host, alongWidth: bool, other: real, low: real, high: real) {
    high - low > 1.0 && Mid(low, high) < low && host.AcceptsAlong(alongWidth, Mid(low, high), other)
  }

  /** The same search without the check for a middle that does not advance. */
  method SearchFromMinimum(host: Host, alongWidth: bool, other: real, low: real, high: real) returns (fitted: real, ghost rejected: real)
    requires host.AcceptsAlong(alongWidth, low, other)
    requires !host.AcceptsAlong(alongWidth, high, other) || low == high
    modifies host
    ensures host.probes <= old(host.probes) + MAX_ATTEMPTS
    ensures host.AcceptsAlong(alongWidth, fitted, other) && rejected <= high && (low <= high ==> fitted <= high)
    ensures !host.AcceptsAlong(alongWidth, rejected, other) || low == high
    ensures fitted < low <==> GoesBelow(host, alongWidth, other, low, high)
    ensures Gap(low, high) <= MAX_SPAN ==> rejected - fitted < 2.0
    ensures Gap(low, high) <= MAX_SPAN && IsInteger(high) ==> rejected - fitted <= 1.0
  {
    fitted := low;
    var top, attempt := high, 0;
    ghost var below := GoesBelow(host, alongWidth, other, low, high);
    Pow2Of14();
    while attempt < MAX_ATTEMPTS && top - fitted > 1.0
      invariant 0 <= attempt <= MAX_ATTEMPTS && host.probes <= old(host.probes) + attempt
      invariant top <= high && (low <= high ==> fitted <= high) && (IsInteger(high) ==> IsInteger(top))
      invariant host.AcceptsAlong(alongWidth, fitted, other)
      invariant !host.AcceptsAlong(alongWidth, top, other) || low == high
      invariant attempt == 0 ==> fitted == low && top == high
      invariant attempt > 0 && below ==> fitted < low && IsInteger(fitted) && top == high < fitted + 2.0
      invariant attempt > 0 && !below ==> fitted >= low && (IsInteger(fitted) || IsInteger(top))
      invariant Gap(low, high) <= MAX_SPAN ==> Gap(fitted, top) <= Pow2(MAX_ATTEMPTS - attempt)
    {
      var mid := Mid(fitted, top);
      MidHalves(fitted, top);
      if attempt == 0 && mid < low {
        StuckBelow(low, high);
      } else if attempt > 0 && below {
        MidOfClose(fitted, top);
      } else if IsInteger(top) {
        MidAdvances(fitted, top);
      }
      var ok := host.ResizeAlong(alongWidth, mid, other);
      if ok {
        fitted := mid;
      } else {
        top := mid;
      }
      attempt := attempt + 1;
    }
    rejected := top;
    if Gap(low, high) <= MAX_SPAN && attempt == MAX_ATTEMPTS {
      SmallGapIsClose(fitted, top);
    }
  }

  // ---------- the two searches ----------

  /** Accepting a size means accepting every smaller one. */
  ghost predicate DownwardClosed(accepts: (real, real) -> bool) {
    forall w, h, v, g | accepts(w, h) && v <= w && g <= h :: accepts(v, g)
  }

  /** A pixel for a whole target, two otherwise. */
  function Slack(target: real): real { if IsInteger(target) then 1.0 else 2.0 }

  /** No accepted value along the axis is a slack or more above the fitted one. */
  ghost predicate LargestAlong(host: Host, alongWidth: bool, other: real, fitted: real, slack: real) {
    forall x | host.AcceptsAlong(alongWidth, x, other) :: x < fitted + slack
  }

  lemma {:induction false} SmallerAccepted(host: Host, alongWidth: bool, other: real, x: real, y: real)
    requires DownwardClosed(host.accepts) && host.AcceptsAlong(alongWidth, x, other) && y <= x
    ensures host.AcceptsAlong(alongWidth, y, other)
  {
  }

  lemma {:induction false} RejectedBounds(host: Host, alongWidth: bool, other: real, fitted: real, rejected: real, slack: real)
    requires DownwardClosed(host.accepts) && !host.AcceptsAlong(alongWidth, rejected, other) && rejected <= fitted + slack
    ensures LargestAlong(host, alongWidth, other, fitted, slack)
  {
    forall x | host.AcceptsAlong(alongWidth, x, other) ensures x < fitted + slack {
      if x >= rejected {
        SmallerAccepted(host, alongWidth, other, x, rejected);
      }
    }
  }

  function LowStart(target: real, current: real): real { Min(target, Max(1.0, current)) }

  /** Where growing starts: at the target if that is no larger than the current size or than one,
      otherwise at the current size, or at one if that is smaller. */
  lemma {:induction false} StartsAt(target: real, current: real)
    ensures LowStart(target, current) ==
            if target <= current || target <= 1.0 then target else if current >= 1.0 then current else 1.0
  {
  }

  /** Nothing accepted along the axis is two pixels above the largest size found, and for a whole target
      nothing is one above. */
  lemma {:induction false} LargestMeans(host: Host, other: real, fitted: real, target: real, x: real)
    ensures LargestAlong(host, true, other, fitted, Slack(target)) && host.accepts(x, other) ==>
              x - fitted < 2.0 && (target.Floor as real == target ==> x - fitted < 1.0)
    ensures LargestAlong(host, false, other, fitted, Slack(target)) && host.accepts(other, x) ==>
              x - fitted < 2.0 && (target.Floor as real == target ==> x - fitted < 1.0)
  {
    assert host.AcceptsAlong(true, x, other) == host.accepts(x, other);
    assert host.AcceptsAlong(false, x, other) == host.accepts(other, x);
  }

  /** A host with the largest size W by H accepts every smaller size of the sizes it accepts. */
  lemma {:induction false} LimitsAreDownward(width: real, height: real)
    ensures DownwardClosed((w: real, h: real) => w <= width && h <= height)
  {
  }

  method FitAxisUpward(host: Host, alongWidth: bool, other: real, low: real, target: real) returns (fitted: real)
    requires low <= target
    modifies host
    ensures host.probes <= old(host.probes) + 1 + MAX_ATTEMPTS
    ensures low <= fitted <= target && (fitted == low || host.AcceptsAlong(alongWidth, fitted, other))
    ensures DownwardClosed(host.accepts) && Gap(low, target) <= MAX_SPAN ==>
              fitted == target || LargestAlong(host, alongWidth, other, fitted, Slack(target))
  {
    if target > low {
      var ok := host.ResizeAlong(alongWidth, target, other);
      if ok {
        return target;
      }
    }
    ghost var rejected;
    fitted, rejected := SearchUpward(host, alongWidth, other, low, target);
    if DownwardClosed(host.accepts) && Gap(low, target) <= MAX_SPAN && low < target {
      RejectedBounds(host, alongWidth, other, fitted, rejected, Slack(target));
    }
  }

  /** Growing from the current size towards a target.  The result is as good as the host allows along
      each axis in turn; it is narrower than the current width exactly when the current width is above
      its target while the height is not, and likewise for the height. */
  method FitLargestUpward(host: Host, targetWidth: real, targetHeight: real, currentWidth: real, currentHeight: real)
    returns (result: FitResult)
    modifies host
    ensures host.probes <= old(host.probes) + 32
    ensures result.accepted <==>
            (currentWidth >= targetWidth && currentHeight >= targetHeight) || host.accepts(result.width, result.height)
    ensures host.accepts(LowStart(targetWidth, currentWidth), LowStart(targetHeight, currentHeight)) ==> result.accepted
    ensures currentWidth >= targetWidth && currentHeight >= targetHeight ==>
              && result == FitResult(currentWidth, currentHeight, true)
              && host.probes == old(host.probes) && host.width == old(host.width) && host.height == old(host.height)
    ensures (currentWidth < targetWidth || currentHeight < targetHeight) && host.accepts(targetWidth, targetHeight) ==>
              result == FitResult(targetWidth, targetHeight, true)
    ensures currentWidth < targetWidth || currentHeight < targetHeight ==>
              && LowStart(targetWidth, currentWidth) <= result.width <= targetWidth
              && LowStart(targetHeight, currentHeight) <= result.height <= targetHeight
              && (result.accepted ==> host.width == result.width && host.height == result.height)
    ensures result.width < currentWidth <==> currentWidth > targetWidth && currentHeight < targetHeight
    ensures result.height < currentHeight <==> currentHeight > targetHeight && currentWidth < targetWidth
    ensures (currentWidth < targetWidth || currentHeight < targetHeight) && DownwardClosed(host.accepts)
            && Gap(LowStart(targetWidth, currentWidth), targetWidth) <= MAX_SPAN ==>
              || result.width == targetWidth
              || LargestAlong(host, true, LowStart(targetHeight, currentHeight), result.width, Slack(targetWidth))
    ensures (currentWidth < targetWidth || currentHeight < targetHeight) && DownwardClosed(host.accepts)
            && Gap(LowStart(targetHeight, currentHeight), targetHeight) <= MAX_SPAN ==>
              || result.height == targetHeight
              || LargestAlong(host, false, result.width, result.height, Slack(targetHeight))
  {
    var lowWidth, lowHeight := LowStart(targetWidth, currentWidth), LowStart(targetHeight, currentHeight);
    if currentWidth >= targetWidth && currentHeight >= targetHeight {
      return FitResult(currentWidth, currentHeight, true);
    }
    var whole := host.Resize(targetWidth, targetHeight);
    if whole {
      return FitResult(targetWidth, targetHeight, true);
    }
    var fittedWidth := FitAxisUpward(host, true, lowHeight, lowWidth, targetWidth);
    var fittedHeight := FitAxisUpward(host, false, fittedWidth, lowHeight, targetHeight);
    var accepted := host.Resize(fittedWidth, fittedHeight);
    result := FitResult(fittedWidth, fittedHeight, accepted);
  }

  /** The current size 100 by 50 is accepted and nothing higher is: growing towards 80 by 60 ends at
      80 by 50, narrower than before and no higher. */
  method AcceptedWidthIsLost() returns (result: FitResult)
    ensures result == FitResult(80.0, 50.0, true)
  {
    var host := new Host((w, h) => w <= 100.0 && h <= 50.0, 100.0, 50.0);
    result := FitLargestUpward(host, 80.0, 60.0, 100.0, 50.0);
  }

  method FitAxisFromMinimum(host: Host, alongWidth: bool, other: real, minimum: real, target: real) returns (fitted: real)
    requires host.AcceptsAlong(alongWidth, minimum, other)
    modifies host
    ensures host.probes <= old(host.probes) + 1 + MAX_ATTEMPTS
    ensures host.AcceptsAlong(alongWidth, fitted, other)
    ensures host.AcceptsAlong(alongWidth, target, other) ==> fitted == target
    ensures !host.AcceptsAlong(alongWidth, target, other) ==>
              && (fitted < minimum <==> GoesBelow(host, alongWidth, other, minimum, target))
              && (minimum <= target ==> fitted <= target)
              && (DownwardClosed(host.accepts) && Gap(minimum, target) <= MAX_SPAN ==>
                    LargestAlong(host, alongWidth, other, fitted, Slack(target)))
  {
    var ok := host.ResizeAlong(alongWidth, target, other);
    if ok {
      return target;
    }
    ghost var rejected;
    fitted, rejected := SearchFromMinimum(host, alongWidth, other, minimum, target);
    if DownwardClosed(host.accepts) && Gap(minimum, target) <= MAX_SPAN {
      RejectedBounds(host, alongWidth, other, fitted, rejected, Slack(target));
    }
  }

  /** Searching between a minimum and a whole size. */
  method FitLargest(host: Host, width: real, height: real, minWidth: real, minHeight: real) returns (result: FitResult)
    modifies host
    ensures host.probes <= old(host.probes) + 33
    ensures result.accepted <==> host.accepts(width, height) || host.accepts(minWidth, minHeight)
    ensures result.accepted ==> host.accepts(result.width, result.height) && host.width == result.width && host.height == result.height
    ensures !result.accepted ==> result == FitResult(0.0, 0.0, false) && host.width == old(host.width) && host.height == old(host.height)
    ensures host.accepts(width, height) ==> result.width == width && result.height == height
    ensures !host.accepts(width, height) && result.accepted ==>
              if host.accepts(width, minHeight) then result.width == width
              else
                && (result.width < minWidth <==> GoesBelow(host, true, minHeight, minWidth, width))
                && (DownwardClosed(host.accepts) && Gap(minWidth, width) <= MAX_SPAN ==>
                      LargestAlong(host, true, minHeight, result.width, Slack(width)))
    ensures !host.accepts(width, height) && result.accepted ==>
              if host.accepts(result.width, height) then result.height == height
              else
                && (result.height < minHeight <==> GoesBelow(host, false, result.width, minHeight, height))
                && (DownwardClosed(host.accepts) && Gap(minHeight, height) <= MAX_SPAN ==>
                      LargestAlong(host, false, result.width, result.height, Slack(height)))
  {
    var whole := host.Resize(width, height);
    if whole {
      return FitResult(width, height, true);
    }
    var least := host.Resize(minWidth, minHeight);
    if !least {
      return FitResult(0.0, 0.0, false);
    }
    var fittedWidth := FitAxisFromMinimum(host, true, minHeight, minWidth, width);
    var fittedHeight := FitAxisFromMinimum(host, false, fittedWidth, minHeight, height);
    var accepted := host.Resize(fittedWidth, fittedHeight);
    result := FitResult(fittedWidth, fittedHeight, accepted);
  }

  /** With a whole minimum, or a whole target, the second search never goes below its minimum. */
  lemma {:induction false} WholeBoundStaysAbove(host: Host, alongWidth: bool, other: real, minimum: real, target: real)
    requires IsInteger(minimum) || IsInteger(target)
    ensures !GoesBelow(host, alongWidth, other, minimum, target)
  {
    if target - minimum > 1.0 {
      if IsInteger(target) {
        MidAdvances(minimum, target);
      } else {
        MidHalves(minimum, target);
      }
    }
  }

  /** With neither whole it can: between 2.3 and 3.5 the first size tried is 2. */
  lemma {:induction false} FractionalMinimumIsLost(host: Host, other: real)
    requires host.accepts(2.0, other)
    ensures GoesBelow(host, true, other, 2.3, 3.5)
  {
    FloorIs(2.9, 2);
    assert (2.3 + 3.5) / 2.0 == 2.9;
  }

  /** The gap between whole sizes is their distance; any two sizes less than 16384 apart are within reach. */
  lemma {:induction false} SpanIsReached(low: real, target: real)
    requires (IsInteger(target) && target - low <= MAX_SPAN as real) || target - low <= (MAX_SPAN - 1) as real
    ensures Gap(low, target) <= MAX_SPAN
  {
  }
}
