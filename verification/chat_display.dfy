/**
 The chat container and `limitMessage`: the container is the sequence of its
 message boxes, oldest first, each reduced to its rendered height; the
 container's content height (`scrollHeight`) is the sum of those heights and its
 visible height (`clientHeight`) is a fixed capacity. After each message is
 rendered, the oldest box is removed for as long as the content overflows.
 */
module ChatDisplay {

  /** Content height of a container holding boxes of the given heights. */
  function Sum(heights: seq<nat>): nat {
    if |heights| == 0 then 0 else heights[0] + Sum(heights[1..])
  }

  /** The content is taller than the viewport (`scrollHeight > clientHeight`). */
  predicate Overflows(heights: seq<nat>, capacity: nat) {
    Sum(heights) > capacity
  }

  /** Dropping older boxes never makes the content taller. */
  lemma {:induction false} SumSuffixMonotone(heights: seq<nat>, i: nat, j: nat)
    requires i <= j <= |heights|
    ensures Sum(heights[j..]) <= Sum(heights[i..])
    decreases j - i
  {
    if i < j {
      assert heights[i..][1..] == heights[i + 1..];
      SumSuffixMonotone(heights, i + 1, j);
    }
  }

  /** The newest box alone is no taller than the whole content. */
  lemma {:induction false} SumAtLeastLast(heights: seq<nat>)
    requires |heights| > 0
    ensures heights[|heights| - 1] <= Sum(heights)
  {
    SumSuffixMonotone(heights, 0, |heights| - 1);
    assert heights[|heights| - 1..] == [heights[|heights| - 1]];
    assert heights[0..] == heights;
  }

  /** `limitMessage`: removes the oldest box while the content overflows. What is
      left is a run of newest boxes, in their original order, that fits; the box
      removed last did not fit together with them, so (by `OverflowGrows`) no
      longer run fits. There is no floor of one box: a lone box taller than the
      viewport goes too. */
  method LimitMessages(display: seq<nat>, capacity: nat) returns (kept: seq<nat>)
    ensures |kept| <= |display| && kept == display[|display| - |kept|..]
    ensures Sum(kept) <= capacity
    ensures |kept| < |display| ==> Overflows(display[|display| - |kept| - 1..], capacity)
    ensures !Overflows(display, capacity) ==> |kept| == |display|
  {
    var first := 0;
    while Overflows(display[first..], capacity)
      invariant first <= |display|
      invariant 0 < first ==> Overflows(display[first - 1..], capacity)
      decreases |display| - first
    {
      first := first + 1;
    }
    kept := display[first..];
    assert display[0..] == display;
    if 0 < first {
      OverflowGrows(display, capacity, 0, first - 1);
    }
  }

  /** A run of newest boxes that overflows still overflows with older boxes
      added in front of it. */
  lemma OverflowGrows(display: seq<nat>, capacity: nat, i: nat, j: nat)
    requires i <= j <= |display| && Overflows(display[j..], capacity)
    ensures Overflows(display[i..], capacity)
  {
    SumSuffixMonotone(display, i, j);
  }

  /** `renderMessage` followed by `limitMessage`: the new box of height `height`
      is appended, then older boxes are evicted. The new message stays on screen
      exactly when it fits the viewport by itself, and it is then the newest box;
      the next older box was evicted only because it did not fit with the ones
      kept, so (by `OverflowGrows`) every box that still fits stays. */
  method ShowMessage(display: seq<nat>, height: nat, capacity: nat) returns (kept: seq<nat>)
    ensures |kept| <= |display| + 1 && kept == (display + [height])[|display| + 1 - |kept|..]
    ensures Sum(kept) <= capacity
    ensures |kept| > 0 <==> height <= capacity
    ensures |kept| > 0 ==> kept[|kept| - 1] == height
    ensures |kept| < |display| + 1 ==> Overflows((display + [height])[|display| - |kept|..], capacity)
  {
    var all := display + [height];
    assert Sum(all[|display|..]) == height by {
      assert all[|display|..] == [height];
    }
    kept := LimitMessages(all, capacity);
    if |kept| > 0 {
      SumAtLeastLast(kept);
    }
  }
}
